/** What the session store keeps of what it is given. */
module SessionEffects {
  import opened Wrappers
  import opened Utf16
  import opened Utf8
  import opened Bounding
  import opened SessionRecords
  import opened SessionStores
  import opened BrowserSessionStores

  // ---- URLs ----

  /** A URL whose written form fits. */
  ghost predicate Fitting(p: Platform, urls: iset<Url>, u: Url) {
    LawfulFor(p, urls) && u in urls && u.web && |p.show(u)| <= MAX_URL_BYTES
  }

  lemma ShownIsRead(p: Platform, urls: iset<Url>, u: Url)
    requires Fitting(p, urls, u)
    ensures Bounded(p, p.show(u), MAX_URL_BYTES) == Some(p.show(u)) && p.parse(p.show(u)) == Some(u) && !p.isBlank(p.show(u))
  {
    GraphicIsBounded(p, p.show(u), MAX_URL_BYTES);
  }

  /** A web URL without credentials, secrets and fragment is kept as it is. */
  lemma PlainWebUrlIsKept(p: Platform, urls: iset<Url>, u: Url)
    requires Fitting(p, urls, u) && !u.credentials && u.hash == []
    requires forall i :: 0 <= i < |u.query| ==> !p.isSensitive(u.query[i].key)
    ensures Sanitize(p, Some(p.show(u))) == p.show(u)
  {
    ShownIsRead(p, urls, u);
    assert p.strip(u) == u;
    assert u.(hash := []) == u;
    GraphicBytes(p.show(u));
  }

  /** Of another one everything is kept but its secrets and its fragment; with credentials nothing is. */
  lemma SecretsAreDropped(p: Platform, urls: iset<Url>, u: Url)
    requires Fitting(p, urls, u)
    ensures Sanitize(p, Some(p.show(u))) ==
            if u.credentials || |p.show(p.strip(u).(hash := []))| > MAX_URL_BYTES then BLANK else p.show(p.strip(u).(hash := []))
  {
    ShownIsRead(p, urls, u);
    CleanedStays(p, urls, u);
    GraphicBytes(p.show(Cleaned(p, u)));
  }

  /** What is no web URL, or none at all, is blank. */
  lemma OtherUrlsAreBlank(p: Platform, text: Text)
    requires Lawful(p) && Graphic(text) && 0 < |text| <= MAX_URL_BYTES
    requires p.parse(text).None? || !p.parse(text).value.web
    ensures Sanitize(p, Some(text)) == Sanitize(p, None) == BLANK
  {
    GraphicIsBounded(p, text, MAX_URL_BYTES);
  }

  /** A bounded text is the longest prefix that fits of the trimmed text, with spaces for control characters. */
  lemma BoundedIsAPrefix(p: Platform, s: Text, max: nat)
    ensures var whole := Trim(Spaced(p.nfkc(s)));
            match Bounded(p, s, max)
            case None => s == [] || whole == [] || ByteLength(whole[..1]) > max
            case Some(r) => r <= whole && r != [] && ByteLength(r) <= max && forall n :: |r| < n <= |whole| ==> ByteLength(whole[..n]) > max
  {
    BoundTextIsLongest(Trim(Spaced(p.nfkc(s))), max);
  }

  // ---- records ----

  ghost predicate GoodProfile(profile: ProfileInput) {
    profile.IsolatedInput? || (profile.AuthenticatedInput? && profile.optIn && IsProfileId(profile.profileId))
  }

  /** An input whose ids have the right form already. */
  ghost predicate Plain(p: Platform, input: Input) {
    && input.Input? && input.surfaceId.Some? && IsSurfaceId(input.surfaceId.value)
    && input.handle.Some? && IsHandle(input.handle.value) && input.owner.Some? && p.isOwner(input.owner.value)
    && GoodProfile(input.profile)
    && input.order.Some? && 0 <= input.order.value <= 100000
    && input.zoom.Some? && 0.25 <= input.zoom.value <= 5.0
  }

  lemma ShapeIsKept(p: Platform, s: Text, shape: Shape)
    requires Lawful(p) && Matches(shape, s)
    ensures Safe(p, Some(s), shape) == Some(s)
  {
    ShapesAreGraphic(shape, s);
    GraphicIsBounded(p, s, Limit(shape));
  }

  lemma ProfileIsKept(p: Platform, profile: ProfileInput)
    requires Lawful(p) && GoodProfile(profile)
    ensures SafeProfile(p, profile) ==
            Some(if profile.IsolatedInput? then Isolated else Authenticated(profile.profileId))
  {
    if profile.AuthenticatedInput? { ShapeIsKept(p, profile.profileId, ProfileIdShape); }
  }

  /** A plain input is accepted with all its fields, and its URL sanitised. */
  lemma PlainInputIsKept(p: Platform, input: Input)
    requires Lawful(p) && Plain(p, input)
    ensures Normalize(p, input) ==
            Some(Record(input.surfaceId.value, input.handle.value, input.owner.value,
                        if input.profile.IsolatedInput? then Isolated else Authenticated(input.profile.profileId),
                        Sanitize(p, input.url), input.order.value, input.zoom.value))
  {
    ShapeIsKept(p, input.surfaceId.value, SurfaceIdShape);
    ShapeIsKept(p, input.handle.value, HandleShape);
    ProfileIsKept(p, input.profile);
  }

  /** Whatever is accepted has the form it should have, and the owner, order, zoom and kind of profile it came with. */
  lemma AcceptedRecordIsTiedToItsInput(p: Platform, input: Input)
    requires Normalize(p, input).Some?
    ensures var r := Normalize(p, input).value;
            && input.Input? && IsSurfaceId(r.surfaceId) && IsHandle(r.handle) && p.isOwner(r.owner)
            && Some(r.owner) == input.owner && Some(r.order) == input.order && Some(r.zoom) == input.zoom
            && 0 <= r.order <= 100000 && 0.25 <= r.zoom <= 5.0 && r.url == Sanitize(p, input.url)
            && (r.profile.Isolated? <==> input.profile.IsolatedInput?)
            && (r.profile.Authenticated? ==> input.profile.AuthenticatedInput? && input.profile.optIn && IsProfileId(r.profile.profileId))
  {
  }

  /** A lower-case word of up to 64 letters is a profile id, unless it is one of the two reserved words. */
  lemma WordsAreProfileIds(s: Text)
    requires 1 <= |s| <= 64 && s != Ascii("default") && s != Ascii("session")
    requires forall i :: 0 <= i < |s| ==> 0x61 <= s[i] <= 0x7A
    ensures IsProfileId(s) && !IsProfileId(Ascii("default")) && !IsProfileId(Ascii("session"))
  {
  }

  // ---- reading ----

  ghost predicate AllPresent(items: seq<Option<Record>>) {
    forall i :: 0 <= i < |items| ==> items[i].Some?
  }

  function Values(items: seq<Option<Record>>): seq<Record>
    requires forall i :: 0 <= i < |items| ==> items[i].Some?
  {
    seq(|items|, i requires 0 <= i < |items| => items[i].value)
  }

  lemma {:induction false} CollectExactly(kept: seq<Record>, items: seq<Option<Record>>)
    requires Apart(kept)
    ensures Collect(kept, items).Some? <==> AllPresent(items) && Apart(kept + Values(items))
    ensures Collect(kept, items).Some? ==> Collect(kept, items).value == kept + Values(items)
    decreases |items|
  {
    if items == [] {
      assert AllPresent(items) && kept + Values(items) == kept;
    } else if items[0].Some? {
      var first, more := items[0].value, kept + [items[0].value];
      if Clashes(kept, first) {
        if AllPresent(items) { ClashIsNotApart(kept, items); }
      } else {
        CollectExactly(more, items[1..]);
        PresentCons(items);
        if AllPresent(items) { assert kept + Values(items) == more + Values(items[1..]); }
      }
    }
  }

  lemma PresentCons(items: seq<Option<Record>>)
    requires items != [] && items[0].Some?
    ensures AllPresent(items) <==> AllPresent(items[1..])
  {
    if AllPresent(items[1..]) {
      forall i | 0 <= i < |items| ensures items[i].Some? { if i > 0 { assert items[1..][i - 1].Some?; } }
    }
  }

  lemma ClashIsNotApart(kept: seq<Record>, items: seq<Option<Record>>)
    requires items != [] && AllPresent(items) && Clashes(kept, items[0].value)
    ensures !Apart(kept + Values(items))
  {
    var all := kept + Values(items);
    var i :| 0 <= i < |kept| && Same(kept[i], items[0].value);
    assert all[i] == kept[i] && all[|kept|] == items[0].value;
  }

  /**
   Stored items are read exactly when there are at most 64, all but the legacy ones are accepted, and no two of those have
   an id or a handle in common; then they are read in their order, and no other.
   */
  lemma WhatIsRead(p: Platform, items: seq<Item>)
    ensures var found := NormalizeAll(p, Owned(items));
            && (Decode(p, Stored(items)).Some? <==> |items| <= 64 && AllPresent(found) && Apart(Values(found)))
            && (Decode(p, Stored(items)).Some? ==> Decode(p, Stored(items)).value == Values(found))
  {
    var found := NormalizeAll(p, Owned(items));
    CollectExactly([], found);
    if AllPresent(found) { assert [] + Values(found) == Values(found); }
  }

  // ---- writing ----

  /** The records of the list, in their order among the items. */
  ghost predicate Among(list: seq<Record>, items: seq<Option<Record>>)
    decreases |items|
  {
    list == [] || (items != [] && (Among(list, items[1..]) || (items[0] == Some(list[0]) && Among(list[1..], items[1..]))))
  }

  /** An item is in the list, or has an id or a handle in common with a record that is. */
  ghost predicate Covered(list: seq<Record>, item: Option<Record>) {
    item.Some? ==> exists k :: 0 <= k < |list| && Same(list[k], item.value)
  }

  lemma {:induction false} UniqueIs(kept: seq<Record>, items: seq<Option<Record>>)
    ensures kept <= Unique(kept, items) && Among(Unique(kept, items)[|kept|..], items)
    ensures forall i :: 0 <= i < |items| ==> Covered(Unique(kept, items), items[i])
    decreases |items|
  {
    var u := Unique(kept, items);
    if items != [] {
      var rest := items[1..];
      if items[0].None? || Clashes(kept, items[0].value) {
        UniqueIs(kept, rest);
        if items[0].Some? {
          var k :| 0 <= k < |kept| && Same(kept[k], items[0].value);
          assert Same(u[k], items[0].value);
        }
      } else {
        var more := kept + [items[0].value];
        UniqueIs(more, rest);
        assert u[|kept|] == items[0].value && Same(u[|kept|], items[0].value);
        assert u[|kept|..] == [items[0].value] + u[|more|..];
      }
      forall i | 0 <= i < |items| ensures Covered(u, items[i]) { if i > 0 { assert items[i] == rest[i - 1]; } }
    } else {
      assert u[|kept|..] == [];
    }
  }

  /**
   A write stores the accepted records in their order; one is left out only when its id or handle is that of a record
   before it, or behind the first 64.
   */
  lemma WhatIsWritten(p: Platform, store: Store, inputs: seq<Input>)
    ensures var found := NormalizeAll(p, inputs);
            var state := Apply(p, store, Write(inputs)).state;
            && |state| <= 64
            && exists all :: state == (if |all| <= 64 then all else all[..64]) && Among(all, found)
                             && forall i :: 0 <= i < |found| ==> Covered(all, found[i])
  {
    var found := NormalizeAll(p, inputs);
    UniqueIs([], found);
    assert Unique([], found)[0..] == Unique([], found);
  }

  // ---- upserts and removals ----

  ghost predicate Other(s: seq<Record>, r: Record, x: Record) {
    x in s && x.surfaceId != r.surfaceId
  }

  /** An upsert is refused exactly when another surface has the handle. */
  lemma UpsertIsRefusedForATakenHandle(s: seq<Record>, r: Record)
    ensures Upserted(s, r).None? <==> exists x :: Other(s, r, x) && x.handle == r.handle
  {
    var kept := WithoutSurface(s, r.surfaceId);
    WithoutIs(s, r.surfaceId);
    if HandleTaken(kept, r.handle) {
      var i :| 0 <= i < |kept| && kept[i].handle == r.handle;
      assert kept[i] in kept;
      assert Other(s, r, kept[i]);
    }
    if x :| Other(s, r, x) && x.handle == r.handle { assert x in kept; }
  }

  /**
   After an upsert the records are sorted by order, and they are the record and those of the other surfaces; above 64 the
   ones with the greatest orders are missing.
   */
  lemma WhatAnUpsertStores(s: seq<Record>, r: Record)
    requires Apart(s) && Upserted(s, r).Some?
    ensures var t := Upserted(s, r).value;
            && Sorted(t) && |t| <= 64
            && (forall x :: x in t ==> x == r || Other(s, r, x))
            && (forall x :: x == r || Other(s, r, x) ==> x in t || (|t| == 64 && forall y :: y in t ==> y.order <= x.order))
  {
    var kept := WithoutSurface(s, r.surfaceId);
    WithoutIs(s, r.surfaceId);
    KeptApart(s, r);
    SortIsApart(kept + [r]);
    SortIsStable(kept + [r], 0);
    var sorted, t := Sort(kept + [r]), Upserted(s, r).value;
    forall x | x == r || Other(s, r, x) ensures x in t || (|t| == 64 && forall y :: y in t ==> y.order <= x.order) {
      assert x in kept + [r];
      CutAtSixtyFour(sorted, t, x);
    }
    forall x | x in t ensures x == r || Other(s, r, x) { assert x in sorted; }
  }

  lemma CutAtSixtyFour(sorted: seq<Record>, t: seq<Record>, x: Record)
    requires Sorted(sorted) && t == First(sorted, MAX_SESSIONS) && x in sorted
    ensures x in t || (|t| == 64 && forall y :: y in t ==> y.order <= x.order)
  {
    var i :| 0 <= i < |sorted| && sorted[i] == x;
    if i < |t| { assert t[i] == x; }
  }

  /** A removal takes the records of the surface and leaves the others in their order. */
  lemma {:induction false} RemovalLeavesTheOthers(s: seq<Record>, surfaceId: Text, i: nat, j: nat)
    requires i < j < |WithoutSurface(s, surfaceId)|
    ensures exists a, b :: 0 <= a < b < |s| && s[a] == WithoutSurface(s, surfaceId)[i] && s[b] == WithoutSurface(s, surfaceId)[j]
  {
    var t, rest := WithoutSurface(s, surfaceId), s[1..];
    if s[0].surfaceId == surfaceId {
      RemovalLeavesTheOthers(rest, surfaceId, i, j);
      var a, b :| 0 <= a < b < |rest| && rest[a] == t[i] && rest[b] == t[j];
      assert s[a + 1] == t[i] && s[b + 1] == t[j];
    } else if i > 0 {
      RemovalLeavesTheOthers(rest, surfaceId, i - 1, j - 1);
      var a, b :| 0 <= a < b < |rest| && rest[a] == t[i] && rest[b] == t[j];
      assert s[a + 1] == t[i] && s[b + 1] == t[j];
    } else {
      WithoutIs(rest, surfaceId);
      assert t[j] in WithoutSurface(rest, surfaceId);
      var b :| 0 <= b < |rest| && rest[b] == t[j];
      assert s[b + 1] == t[j] && s[0] == t[0];
    }
  }

  /** Operations on a store: what was accepted is in the state and in the backend, and nothing is left after a clear. */
  lemma OperationsAreSaved(p: Platform, store: Store, op: Operation)
    requires op.Write? || op.Remove? || op.Clear?
    ensures var after := Apply(p, store, op);
            && after.stored == Stored(Saved(after.state))
            && (op.Clear? ==> after.state == [])
            && (op.Remove? ==> forall r :: r in after.state <==> r in store.state && r.surfaceId != op.surfaceId)
  {
    if op.Remove? { WithoutIs(store.state, op.surfaceId); }
  }

  lemma AcceptedUpsertIsSaved(p: Platform, store: Store, input: Input)
    ensures var r := Normalize(p, input);
            var after := Apply(p, store, Upsert(input));
            if r.None? || Upserted(store.state, r.value).None? then after == store
            else after.state == Upserted(store.state, r.value).value && after.stored == Stored(Saved(after.state))
  {
  }
}
