/** The session store from raw values to disk and back, and the class that keeps it. */
module BrowserSessionStores {
  import opened Wrappers
  import opened Utf16
  import opened Bounding
  import opened SessionRecords
  import opened SessionStores

  /** A stored item; a legacy one has no owner and is skipped. */
  datatype Item = Legacy | Item(input: Input)

  /** What the backend holds. */
  datatype Stored = Unreadable | Stored(items: seq<Item>)

  datatype Store = Store(stored: Stored, state: seq<Record>)

  function NormalizeAll(p: Platform, inputs: seq<Input>): seq<Option<Record>> {
    if inputs == [] then [] else [Normalize(p, inputs[0])] + NormalizeAll(p, inputs[1..])
  }

  lemma {:induction false} NormalizeEach(p: Platform, inputs: seq<Input>)
    ensures |NormalizeAll(p, inputs)| == |inputs|
    ensures forall i :: 0 <= i < |inputs| ==> NormalizeAll(p, inputs)[i] == Normalize(p, inputs[i])
  {
    if inputs != [] { NormalizeEach(p, inputs[1..]); }
  }

  function Owned(items: seq<Item>): seq<Input> {
    if items == [] then [] else (if items[0].Legacy? then [] else [items[0].input]) + Owned(items[1..])
  }

  ghost function Decode(p: Platform, stored: Stored): Option<seq<Record>> {
    if stored.Unreadable? || |stored.items| > MAX_SESSIONS then None else Collect([], NormalizeAll(p, Owned(stored.items)))
  }

  function Saved(s: seq<Record>): (r: seq<Item>)
    ensures |r| == |s| && forall i :: 0 <= i < |r| ==> r[i] == Item(AsInput(s[i]))
  {
    seq(|s|, i requires 0 <= i < |s| => Item(AsInput(s[i])))
  }

  /** readState: an unreadable state is replaced by the empty one. */
  ghost function Read(p: Platform, stored: Stored): Store {
    if Decode(p, stored).None? then Store(Stored([]), []) else Store(stored, Decode(p, stored).value)
  }

  function Holding(s: seq<Record>): Store {
    Store(Stored(Saved(s)), s)
  }

  datatype Operation = Load | Write(inputs: seq<Input>) | Upsert(input: Input) | Remove(surfaceId: Text) | Clear

  ghost function Apply(p: Platform, store: Store, op: Operation): Store {
    match op
    case Load => Read(p, store.stored)
    case Write(inputs) => Holding(Written(NormalizeAll(p, inputs)))
    case Upsert(input) =>
      var r := Normalize(p, input);
      if r.None? || Upserted(store.state, r.value).None? then store else Holding(Upserted(store.state, r.value).value)
    case Remove(surfaceId) => Holding(WithoutSurface(store.state, surfaceId))
    case Clear => Holding([])
  }

  ghost function Run(p: Platform, store: Store, ops: seq<Operation>): Store
    decreases |ops|
  {
    if ops == [] then store else Run(p, Apply(p, store, ops[0]), ops[1..])
  }

  // ---- the invariant ----

  /** The records that normalising leaves as they are. */
  ghost function NormalFor(p: Platform): iset<Record> {
    iset r: Record | Normalize(p, AsInput(r)) == Some(r)
  }

  /** The state is valid, and it is what the backend would be read as. */
  ghost predicate Inv(p: Platform, store: Store) {
    Valid(NormalFor(p), store.state) && Decode(p, store.stored) == Some(store.state)
  }

  lemma NormalizedAreNormal(p: Platform, inputs: seq<Input>)
    requires Lawful(p)
    ensures AllGood(NormalFor(p), NormalizeAll(p, inputs))
  {
    NormalizeEach(p, inputs);
    forall i | 0 <= i < |inputs| && Normalize(p, inputs[i]).Some? ensures Normalize(p, inputs[i]).value in NormalFor(p) {
      NormalizeIsIdempotent(p, inputs[i]);
    }
  }

  lemma {:induction false} OwnedSaved(s: seq<Record>)
    ensures |Owned(Saved(s))| == |s| && forall i :: 0 <= i < |s| ==> Owned(Saved(s))[i] == AsInput(s[i])
  {
    if s != [] {
      assert Saved(s)[1..] == Saved(s[1..]);
      OwnedSaved(s[1..]);
    }
  }

  lemma {:induction false} OwnedIsNoLonger(items: seq<Item>)
    ensures |Owned(items)| <= |items|
  {
    if items != [] { OwnedIsNoLonger(items[1..]); }
  }

  /** A valid state is read back as it was saved. */
  lemma SavedReadsBack(p: Platform, s: seq<Record>)
    requires Valid(NormalFor(p), s)
    ensures Inv(p, Holding(s))
  {
    OwnedSaved(s);
    var items := NormalizeAll(p, Owned(Saved(s)));
    NormalizeEach(p, Owned(Saved(s)));
    forall i | 0 <= i < |s| ensures items[i] == Some(s[i]) { assert s[i] in NormalFor(p); }
    assert items == Present(s);
    assert [] + s == s;
    CollectKeeps([], s);
  }

  /** Whatever the backend holds, a read leaves a valid state. */
  lemma ReadIsValid(p: Platform, stored: Stored)
    requires Lawful(p)
    ensures Inv(p, Read(p, stored))
  {
    if Decode(p, stored).None? {
      SavedReadsBack(p, []);
      assert Saved([]) == [];
    } else {
      OwnedIsNoLonger(stored.items);
      NormalizeEach(p, Owned(stored.items));
      NormalizedAreNormal(p, Owned(stored.items));
      CollectIsApart(NormalFor(p), [], NormalizeAll(p, Owned(stored.items)));
    }
  }

  lemma ApplyKeeps(p: Platform, store: Store, op: Operation)
    requires Lawful(p) && Inv(p, store)
    ensures Inv(p, Apply(p, store, op))
  {
    var normal := NormalFor(p);
    match op
    case Load => ReadIsValid(p, store.stored);
    case Write(inputs) =>
      NormalizedAreNormal(p, inputs);
      WrittenIsValid(normal, NormalizeAll(p, inputs));
      SavedReadsBack(p, Written(NormalizeAll(p, inputs)));
    case Upsert(input) =>
      var r := Normalize(p, input);
      if r.Some? && Upserted(store.state, r.value).Some? {
        NormalizeIsIdempotent(p, input);
        UpsertKeeps(normal, store.state, r.value);
        SavedReadsBack(p, Upserted(store.state, r.value).value);
      }
    case Remove(surfaceId) =>
      RemoveKeeps(normal, store.state, surfaceId);
      SavedReadsBack(p, WithoutSurface(store.state, surfaceId));
    case Clear => SavedReadsBack(p, []);
  }

  lemma {:induction false} RunKeeps(p: Platform, store: Store, ops: seq<Operation>)
    requires Lawful(p) && Inv(p, store)
    ensures Inv(p, Run(p, store, ops))
    decreases |ops|
  {
    if ops != [] {
      ApplyKeeps(p, store, ops[0]);
      RunKeeps(p, Apply(p, store, ops[0]), ops[1..]);
    }
  }

  /**
   Whatever the backend held at the start and whatever is called: at most 64 records with distinct ids and handles,
   and the backend decodes to exactly the state, so a load changes nothing and never resets the store.
   */
  lemma StoreReadsBackWhatItWrote(p: Platform, stored: Stored, ops: seq<Operation>)
    requires Lawful(p)
    ensures var store := Run(p, Read(p, stored), ops);
            && |store.state| <= MAX_SESSIONS && Apart(store.state)
            && Decode(p, store.stored) == Some(store.state)
            && Apply(p, store, Load) == store
  {
    ReadIsValid(p, stored);
    RunKeeps(p, Read(p, stored), ops);
  }

  // ---- the store as the source updates it ----

  function SurfaceIds(s: seq<Record>): set<Text> {
    set i | 0 <= i < |s| :: s[i].surfaceId
  }

  function Handles(s: seq<Record>): set<Text> {
    set i | 0 <= i < |s| :: s[i].handle
  }

  lemma SetsAppend(s: seq<Record>, r: Record)
    ensures SurfaceIds(s + [r]) == SurfaceIds(s) + {r.surfaceId} && Handles(s + [r]) == Handles(s) + {r.handle}
  {
    assert forall i :: 0 <= i < |s| ==> (s + [r])[i] == s[i];
    assert (s + [r])[|s|] == r;
  }

  lemma SetsShowClashes(s: seq<Record>, r: Record)
    ensures Clashes(s, r) <==> r.surfaceId in SurfaceIds(s) || r.handle in Handles(s)
  {
    if Clashes(s, r) {
      var i :| 0 <= i < |s| && Same(s[i], r);
      assert s[i].surfaceId in SurfaceIds(s) && s[i].handle in Handles(s);
    }
    if r.surfaceId in SurfaceIds(s) {
      var i :| 0 <= i < |s| && s[i].surfaceId == r.surfaceId;
      assert Same(s[i], r);
    }
    if r.handle in Handles(s) {
      var i :| 0 <= i < |s| && s[i].handle == r.handle;
      assert Same(s[i], r);
    }
  }

  /** What decodeState makes of the items still to come, after those kept. */
  ghost function Gathered(p: Platform, kept: seq<Record>, items: seq<Item>): Option<seq<Record>> {
    Collect(kept, NormalizeAll(p, Owned(items)))
  }

  lemma GatheredNext(p: Platform, kept: seq<Record>, items: seq<Item>, i: nat)
    requires i < |items|
    ensures items[i].Legacy? ==> Gathered(p, kept, items[i..]) == Gathered(p, kept, items[i + 1..])
    ensures !items[i].Legacy? ==>
              var r := Normalize(p, items[i].input);
              Gathered(p, kept, items[i..]) ==
              if r.None? || Clashes(kept, r.value) then None else Gathered(p, kept + [r.value], items[i + 1..])
  {
    assert items[i..][1..] == items[i + 1..];
    if items[i].Legacy? {
      assert Owned(items[i..]) == Owned(items[i + 1..]);
    } else {
      assert Owned(items[i..]) == [items[i].input] + Owned(items[i + 1..]);
      CollectNext(p, kept, items[i].input, Owned(items[i + 1..]));
    }
  }

  lemma GatheredBySets(p: Platform, kept: seq<Record>, items: seq<Item>, i: nat, surfaceIds: set<Text>, handles: set<Text>)
    requires i < |items| && !items[i].Legacy? && surfaceIds == SurfaceIds(kept) && handles == Handles(kept)
    ensures var r := Normalize(p, items[i].input);
            Gathered(p, kept, items[i..]) ==
            if r.None? || r.value.surfaceId in surfaceIds || r.value.handle in handles then None
            else Gathered(p, kept + [r.value], items[i + 1..])
  {
    GatheredNext(p, kept, items, i);
    var r := Normalize(p, items[i].input);
    if r.Some? { SetsShowClashes(kept, r.value); }
  }

  /** The loop of decodeState: legacy items are skipped, every other one is normalised and must be new. */
  method DecodeItems(p: Platform, items: seq<Item>) returns (r: Option<seq<Record>>)
    ensures r == Gathered(p, [], items)
  {
    var surfaces, surfaceIds, handles, i := [], {}, {}, 0;
    assert items[0..] == items;
    while i < |items|
      invariant 0 <= i <= |items| && surfaceIds == SurfaceIds(surfaces) && handles == Handles(surfaces)
      invariant Gathered(p, [], items) == Gathered(p, surfaces, items[i..])
    {
      if items[i].Legacy? {
        GatheredNext(p, surfaces, items, i);
      } else {
        GatheredBySets(p, surfaces, items, i, surfaceIds, handles);
        var normalized := Normalize(p, items[i].input);
        if normalized.None? { return None; }
        var record := normalized.value;
        if record.surfaceId in surfaceIds || record.handle in handles { return None; }
        SetsAppend(surfaces, record);
        surfaceIds, handles := surfaceIds + {record.surfaceId}, handles + {record.handle};
        surfaces := surfaces + [record];
      }
      i := i + 1;
    }
    r := Some(surfaces);
  }

  method DecodeState(p: Platform, stored: Stored) returns (r: Option<seq<Record>>)
    ensures r == Decode(p, stored)
  {
    if stored.Unreadable? || |stored.items| > MAX_SESSIONS { return None; }
    r := DecodeItems(p, stored.items);
  }

  lemma NormalizeNext(p: Platform, input: Input, rest: seq<Input>)
    ensures NormalizeAll(p, [input] + rest) == [Normalize(p, input)] + NormalizeAll(p, rest)
  {
    assert ([input] + rest)[1..] == rest;
  }

  lemma CollectNext(p: Platform, kept: seq<Record>, input: Input, rest: seq<Input>)
    ensures var r := Normalize(p, input);
            Collect(kept, NormalizeAll(p, [input] + rest)) ==
            if r.None? || Clashes(kept, r.value) then None else Collect(kept + [r.value], NormalizeAll(p, rest))
  {
    NormalizeNext(p, input, rest);
    assert ([Normalize(p, input)] + NormalizeAll(p, rest))[1..] == NormalizeAll(p, rest);
  }

  lemma UniqueNext(p: Platform, kept: seq<Record>, input: Input, rest: seq<Input>)
    ensures var r := Normalize(p, input);
            Unique(kept, NormalizeAll(p, [input] + rest)) ==
            Unique(if r.None? || Clashes(kept, r.value) then kept else kept + [r.value], NormalizeAll(p, rest))
  {
    NormalizeNext(p, input, rest);
    assert ([Normalize(p, input)] + NormalizeAll(p, rest))[1..] == NormalizeAll(p, rest);
  }

  class BrowserSessionStore {
    const platform: Platform
    var state: seq<Record>
    var backend: Stored

    ghost function Model(): Store
      reads this
    {
      Store(backend, state)
    }

    /** The constructor reads the backend, and resets one it cannot read. */
    constructor (p: Platform, stored: Stored)
      ensures platform == p && Model() == Read(p, stored)
    {
      platform, backend, state := p, stored, [];
      new;
      LoadState();
    }

    method LoadState()
      modifies this
      ensures Model() == Apply(platform, old(Model()), Load)
    {
      var decoded := DecodeState(platform, backend);
      if decoded.None? { backend, state := Stored([]), []; } else { state := decoded.value; }
    }

    method SaveState(next: seq<Record>)
      modifies this
      ensures Model() == Holding(next)
    {
      backend := Stored(Saved(next));
      state := next;
    }

    /** write: the first record of each id and handle, at most 64. */
    method WriteAll(inputs: seq<Input>)
      modifies this
      ensures Model() == Apply(platform, old(Model()), Write(inputs))
    {
      var unique, surfaceIds, handles, i := [], {}, {}, 0;
      ghost var goal := Unique([], NormalizeAll(platform, inputs));
      assert inputs[0..] == inputs;
      while i < |inputs|
        invariant 0 <= i <= |inputs| && surfaceIds == SurfaceIds(unique) && handles == Handles(unique)
        invariant goal == Unique(unique, NormalizeAll(platform, inputs[i..]))
      {
        assert inputs[i..] == [inputs[i]] + inputs[i + 1..];
        UniqueNext(platform, unique, inputs[i], inputs[i + 1..]);
        var normalized := Normalize(platform, inputs[i]);
        if normalized.Some? {
          var record := normalized.value;
          SetsShowClashes(unique, record);
          if record.surfaceId !in surfaceIds && record.handle !in handles {
            SetsAppend(unique, record);
            surfaceIds, handles := surfaceIds + {record.surfaceId}, handles + {record.handle};
            unique := unique + [record];
          }
        }
        i := i + 1;
      }
      SaveState(First(unique, MAX_SESSIONS));
    }

    method UpsertRecord(input: Input) returns (ok: bool)
      modifies this
      ensures Model() == Apply(platform, old(Model()), Upsert(input))
      ensures ok <==> Normalize(platform, input).Some? && Upserted(old(state), Normalize(platform, input).value).Some?
    {
      var normalized := Normalize(platform, input);
      if normalized.None? { return false; }
      var record := normalized.value;
      var records := WithoutSurface(state, record.surfaceId);
      if HandleTaken(records, record.handle) { return false; }
      SaveState(First(Sort(records + [record]), MAX_SESSIONS));
      ok := true;
    }

    method RemoveSurface(surfaceId: Text)
      modifies this
      ensures Model() == Apply(platform, old(Model()), Remove(surfaceId))
      ensures forall r :: r in state <==> r in old(state) && r.surfaceId != surfaceId
    {
      WithoutIs(state, surfaceId);
      SaveState(WithoutSurface(state, surfaceId));
    }

    method ClearAll()
      modifies this
      ensures Model() == Apply(platform, old(Model()), Clear)
    {
      SaveState([]);
    }
  }
}
