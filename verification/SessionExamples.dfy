/** A full session store in which the record just accepted is the one that is dropped. */
module SessionExamples {
  import opened Wrappers
  import opened Utf16
  import opened Bounding
  import opened SessionRecords
  import opened SessionStores
  import opened BrowserSessionStores

  function Digit(n: nat): Unit
    requires n < 10
  {
    0x30 + n
  }

  function IdUnit(n: nat, i: nat): Unit
    requires n < 100
  {
    if i == 8 || i == 13 || i == 18 || i == 23 then 0x2D
    else if i == 34 then Digit(n / 10) else if i == 35 then Digit(n % 10) else 0x38
  }

  /** 88888888-8888-8888-8888-8888888888nn */
  function SurfaceId(n: nat): Text
    requires n < 100
  {
    seq(36, i requires 0 <= i => IdUnit(n, i))
  }

  /** surface:1nn */
  function Handle(n: nat): Text
    requires n < 100
  {
    SURFACE + [0x31, Digit(n / 10), Digit(n % 10)]
  }

  function Session(owner: Text, n: nat, order: int): Record
    requires n < 100
  {
    Record(SurfaceId(n), Handle(n), owner, Isolated, BLANK, order, 1.0)
  }

  function Full(owner: Text): seq<Record> {
    seq(MAX_SESSIONS, n requires 0 <= n < MAX_SESSIONS => Session(owner, n, 0))
  }

  lemma ShapesMatch(n: nat)
    requires n < 100
    ensures Matches(SurfaceIdShape, SurfaceId(n)) && Matches(HandleShape, Handle(n))
  {
    assert |SURFACE| == 8;
    assert Handle(n)[..8] == SURFACE;
  }

  lemma ShapeIsSafe(p: Platform, s: Text, shape: Shape)
    requires Lawful(p) && Matches(shape, s)
    ensures Safe(p, Some(s), shape) == Some(s)
  {
    ShapesAreGraphic(shape, s);
    GraphicIsBounded(p, s, Limit(shape));
  }

  lemma SessionIsNormal(p: Platform, owner: Text, n: nat, order: int)
    requires Lawful(p) && p.isOwner(owner) && n < 100 && 0 <= order <= MAX_ORDER
    ensures Session(owner, n, order) in NormalFor(p)
  {
    ShapesMatch(n);
    ShapeIsSafe(p, SurfaceId(n), SurfaceIdShape);
    ShapeIsSafe(p, Handle(n), HandleShape);
    BlankStays(p);
  }

  lemma SessionsDiffer(m: nat, n: nat)
    requires m < 100 && n < 100 && m != n
    ensures SurfaceId(m) != SurfaceId(n) && Handle(m) != Handle(n)
  {
    assert m / 10 != n / 10 || m % 10 != n % 10;
    assert SurfaceId(m)[34] == Digit(m / 10) && SurfaceId(n)[34] == Digit(n / 10);
    assert SurfaceId(m)[35] == Digit(m % 10) && SurfaceId(n)[35] == Digit(n % 10);
    assert Handle(m)[|SURFACE| + 1] == Digit(m / 10) && Handle(n)[|SURFACE| + 1] == Digit(n / 10);
    assert Handle(m)[|SURFACE| + 2] == Digit(m % 10) && Handle(n)[|SURFACE| + 2] == Digit(n % 10);
  }

  lemma FullIsValid(p: Platform, owner: Text)
    requires Lawful(p) && p.isOwner(owner)
    ensures Valid(NormalFor(p), Full(owner))
  {
    forall i, j | 0 <= i < j < MAX_SESSIONS ensures !Same(Full(owner)[i], Full(owner)[j]) { SessionsDiffer(i, j); }
    forall i | 0 <= i < MAX_SESSIONS ensures Full(owner)[i] in NormalFor(p) { SessionIsNormal(p, owner, i, 0); }
  }

  lemma AddedIsNew(owner: Text)
    ensures var s, added := Full(owner), Session(owner, 64, 1);
            WithoutSurface(s, added.surfaceId) == s && !HandleTaken(s, added.handle)
            && CountUpTo(s, added.order) == MAX_SESSIONS
  {
    var s, added := Full(owner), Session(owner, 64, 1);
    forall i | 0 <= i < MAX_SESSIONS ensures !Same(s[i], added) { SessionsDiffer(i, 64); }
    NothingToReplace(s, added);
    CountAll(s, added.order);
  }

  lemma UpsertApplied(p: Platform, store: Store, input: Input, r: Record)
    requires Normalize(p, input) == Some(r) && Upserted(store.state, r).Some?
    ensures Apply(p, store, Upsert(input)).state == Upserted(store.state, r).value
  {
  }

  lemma DroppedWhenFull(s: seq<Record>, r: Record)
    requires Apart(s) && WithoutSurface(s, r.surfaceId) == s && !HandleTaken(s, r.handle)
    requires CountUpTo(s, r.order) == MAX_SESSIONS
    ensures Upserted(s, r).Some? && r !in Upserted(s, r).value
  {
    UpsertStoresUnlessFull(s, r);
  }

  lemma ReadAsSaved(p: Platform, s: seq<Record>)
    requires Valid(NormalFor(p), s)
    ensures Read(p, Stored(Saved(s))) == Holding(s)
  {
    SavedReadsBack(p, s);
  }

  /**
   On any platform, for any owner: a stored state of 64 sessions at order 0 is read back whole; a valid, new session at
   order 1 is then accepted, and dropped.
   */
  lemma AcceptedAndDropped(p: Platform, owner: Text)
    requires Lawful(p) && p.isOwner(owner)
    ensures var s, added := Full(owner), Session(owner, 64, 1);
            var store := Read(p, Stored(Saved(s)));
            && store.state == s && Normalize(p, AsInput(added)) == Some(added) && Upserted(s, added).Some?
            && added !in Apply(p, store, Upsert(AsInput(added))).state
  {
    FullIsValid(p, owner);
    SessionIsNormal(p, owner, 64, 1);
    AddedIsNew(owner);
    var s, added := Full(owner), Session(owner, 64, 1);
    ReadAsSaved(p, s);
    DroppedWhenFull(s, added);
    UpsertApplied(p, Holding(s), AsInput(added), added);
  }

  lemma {:induction false} NothingToReplace(s: seq<Record>, r: Record)
    requires forall i :: 0 <= i < |s| ==> !Same(s[i], r)
    ensures WithoutSurface(s, r.surfaceId) == s && !HandleTaken(s, r.handle)
  {
    if s != [] { NothingToReplace(s[1..], r); }
  }
}
