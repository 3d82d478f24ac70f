/**
 The store of browser sessions (apps/desktop/src/browser-session-store.ts), over records that are normalised already;
 nothing stands for one that normalising refused.
 */
module SessionStores {
  import opened Wrappers
  import opened Utf16
  import opened Bounding
  import opened SessionRecords

  const MAX_SESSIONS := 64

  predicate Same(r: Record, q: Record) {
    r.surfaceId == q.surfaceId || r.handle == q.handle
  }

  predicate Clashes(kept: seq<Record>, r: Record) {
    exists i :: 0 <= i < |kept| && Same(kept[i], r)
  }

  // ---- reading and writing ----

  /** The reader: a record that is refused or clashes with an earlier one makes the whole state unreadable. */
  function Collect(kept: seq<Record>, items: seq<Option<Record>>): Option<seq<Record>>
    decreases |items|
  {
    if items == [] then Some(kept)
    else if items[0].None? || Clashes(kept, items[0].value) then None
    else Collect(kept + [items[0].value], items[1..])
  }

  /** The writer: a record that is refused or clashes with an earlier one is left out. */
  function Unique(kept: seq<Record>, items: seq<Option<Record>>): seq<Record>
    decreases |items|
  {
    if items == [] then kept
    else if items[0].None? || Clashes(kept, items[0].value) then Unique(kept, items[1..])
    else Unique(kept + [items[0].value], items[1..])
  }

  function Written(items: seq<Option<Record>>): seq<Record> {
    First(Unique([], items), MAX_SESSIONS)
  }

  // ---- sorting by order ----

  /** Behind every record whose order is not greater. */
  function Insert(sorted: seq<Record>, r: Record): seq<Record> {
    if sorted != [] && sorted[|sorted| - 1].order > r.order
    then Insert(sorted[..|sorted| - 1], r) + [sorted[|sorted| - 1]]
    else sorted + [r]
  }

  function Sort(s: seq<Record>): seq<Record> {
    if s == [] then [] else Insert(Sort(s[..|s| - 1]), s[|s| - 1])
  }

  function WithoutSurface(s: seq<Record>, surfaceId: Text): seq<Record> {
    if s == [] then []
    else if s[0].surfaceId == surfaceId then WithoutSurface(s[1..], surfaceId)
    else [s[0]] + WithoutSurface(s[1..], surfaceId)
  }

  predicate HandleTaken(s: seq<Record>, handle: Text) {
    exists i :: 0 <= i < |s| && s[i].handle == handle
  }

  function Upserted(s: seq<Record>, r: Record): Option<seq<Record>> {
    var kept := WithoutSurface(s, r.surfaceId);
    if HandleTaken(kept, r.handle) then None else Some(First(Sort(kept + [r]), MAX_SESSIONS))
  }

  // ---- the sort is the stable one ----

  ghost predicate Sorted(s: seq<Record>) {
    forall i, j :: 0 <= i < j < |s| ==> s[i].order <= s[j].order
  }

  /** The records of one order, as they follow each other. */
  function OfOrder(s: seq<Record>, order: int): seq<Record> {
    if s == [] then []
    else OfOrder(s[..|s| - 1], order) + (if s[|s| - 1].order == order then [s[|s| - 1]] else [])
  }

  lemma OfOrderAppend(s: seq<Record>, r: Record, order: int)
    ensures OfOrder(s + [r], order) == OfOrder(s, order) + (if r.order == order then [r] else [])
  {
    assert (s + [r])[..|s|] == s;
  }

  lemma {:induction false} InsertKeepsOrders(sorted: seq<Record>, r: Record, order: int)
    ensures OfOrder(Insert(sorted, r), order) == OfOrder(sorted, order) + (if r.order == order then [r] else [])
  {
    if sorted != [] && sorted[|sorted| - 1].order > r.order {
      var rest, last := sorted[..|sorted| - 1], sorted[|sorted| - 1];
      InsertKeepsOrders(rest, r, order);
      OfOrderAppend(Insert(rest, r), last, order);
      assert OfOrder(sorted, order) == OfOrder(rest, order) + (if last.order == order then [last] else []);
      assert r.order == order ==> last.order != order;
    } else {
      OfOrderAppend(sorted, r, order);
    }
  }

  lemma {:induction false} InsertMembers(sorted: seq<Record>, r: Record)
    ensures |Insert(sorted, r)| == |sorted| + 1
    ensures forall x :: x in Insert(sorted, r) <==> x in sorted || x == r
  {
    if sorted != [] && sorted[|sorted| - 1].order > r.order {
      var rest, last := sorted[..|sorted| - 1], sorted[|sorted| - 1];
      assert sorted == rest + [last];
      InsertMembers(rest, r);
    }
  }

  lemma {:induction false} InsertSorts(sorted: seq<Record>, r: Record)
    requires Sorted(sorted)
    ensures Sorted(Insert(sorted, r))
  {
    if sorted != [] && sorted[|sorted| - 1].order > r.order {
      var rest, last := sorted[..|sorted| - 1], sorted[|sorted| - 1];
      InsertSorts(rest, r);
      InsertMembers(rest, r);
      var inner := Insert(rest, r);
      forall i | 0 <= i < |inner| ensures inner[i].order <= last.order { assert inner[i] in inner; }
    }
  }

  /** Sorted by order, records of equal order as they were. */
  lemma {:induction false} SortIsStable(s: seq<Record>, order: int)
    ensures Sorted(Sort(s)) && OfOrder(Sort(s), order) == OfOrder(s, order)
  {
    if s != [] {
      var rest, last := s[..|s| - 1], s[|s| - 1];
      SortIsStable(rest, order);
      InsertSorts(Sort(rest), last);
      InsertKeepsOrders(Sort(rest), last, order);
    }
  }

  lemma {:induction false} OfOrderOf(s: seq<Record>, order: int)
    ensures OfOrder(s, order) != [] ==> exists i :: 0 <= i < |s| && s[i].order == order
    ensures forall r :: r in OfOrder(s, order) ==> r.order == order
  {
    if s != [] {
      OfOrderOf(s[..|s| - 1], order);
      if OfOrder(s, order) != [] && s[|s| - 1].order != order {
        var i :| 0 <= i < |s| - 1 && s[..|s| - 1][i].order == order;
        assert s[i].order == order;
      }
    }
  }

  lemma LastsAgree(a: seq<Record>, b: seq<Record>)
    requires Sorted(a) && Sorted(b) && a != [] && b != []
    requires var k := a[|a| - 1].order; OfOrder(a, k) == OfOrder(b, k)
    requires var l := b[|b| - 1].order; OfOrder(a, l) == OfOrder(b, l)
    ensures a[|a| - 1] == b[|b| - 1]
  {
    LastOrderIsReached(a, b);
    LastOrderIsReached(b, a);
    SameLast(a, b);
  }

  lemma LastOrderIsReached(a: seq<Record>, b: seq<Record>)
    requires Sorted(b) && a != [] && b != [] && OfOrder(a, a[|a| - 1].order) == OfOrder(b, a[|a| - 1].order)
    ensures a[|a| - 1].order <= b[|b| - 1].order
  {
    OnlyEmptyIsOrderless(a);
    OfOrderOf(b, a[|a| - 1].order);
  }

  lemma SameLast(a: seq<Record>, b: seq<Record>)
    requires a != [] && b != [] && a[|a| - 1].order == b[|b| - 1].order
    requires OfOrder(a, a[|a| - 1].order) == OfOrder(b, a[|a| - 1].order)
    ensures a[|a| - 1] == b[|b| - 1]
  {
    var m, n := |a| - 1, |b| - 1;
    var k := a[m].order;
    LastOf(OfOrder(a[..m], k), a[m], OfOrder(b[..n], k), b[n]);
  }

  lemma RestsAgree(a: seq<Record>, b: seq<Record>, order: int)
    requires a != [] && b != [] && a[|a| - 1] == b[|b| - 1] && OfOrder(a, order) == OfOrder(b, order)
    ensures OfOrder(a[..|a| - 1], order) == OfOrder(b[..|b| - 1], order)
  {
    var m, n := |a| - 1, |b| - 1;
    if a[m].order == order { LastOf(OfOrder(a[..m], order), a[m], OfOrder(b[..n], order), b[n]); }
    else { assert OfOrder(a[..m], order) + [] == OfOrder(a[..m], order) && OfOrder(b[..n], order) + [] == OfOrder(b[..n], order); }
  }

  lemma OnlyEmptyIsOrderless(s: seq<Record>)
    ensures s == [] || OfOrder(s, s[|s| - 1].order) != []
  {
  }

  /** The records of every order. */
  ghost function ByOrder(s: seq<Record>): imap<int, seq<Record>> {
    imap order: int | true :: OfOrder(s, order)
  }

  lemma SameByOrder(a: seq<Record>, b: seq<Record>, order: int)
    requires ByOrder(a) == ByOrder(b)
    ensures OfOrder(a, order) == OfOrder(b, order)
  {
    assert ByOrder(a)[order] == ByOrder(b)[order];
  }

  lemma EmptyByOrder(a: seq<Record>, b: seq<Record>)
    requires ByOrder(a) == ByOrder(b) && a == []
    ensures b == []
  {
    if b != [] {
      OnlyEmptyIsOrderless(b);
      SameByOrder(a, b, b[|b| - 1].order);
    }
  }

  lemma LastsByOrder(a: seq<Record>, b: seq<Record>)
    requires Sorted(a) && Sorted(b) && a != [] && b != [] && ByOrder(a) == ByOrder(b)
    ensures a[|a| - 1] == b[|b| - 1]
  {
    SameByOrder(a, b, a[|a| - 1].order);
    SameByOrder(a, b, b[|b| - 1].order);
    LastsAgree(a, b);
  }

  lemma RestsByOrder(a: seq<Record>, b: seq<Record>)
    requires a != [] && b != [] && a[|a| - 1] == b[|b| - 1] && ByOrder(a) == ByOrder(b)
    ensures ByOrder(a[..|a| - 1]) == ByOrder(b[..|b| - 1])
  {
    var c, d := a[..|a| - 1], b[..|b| - 1];
    forall order: int ensures OfOrder(c, order) == OfOrder(d, order) {
      SameByOrder(a, b, order);
      RestsAgree(a, b, order);
    }
    assert forall order: int :: ByOrder(c)[order] == ByOrder(d)[order];
  }

  lemma SameEnds(a: seq<Record>, b: seq<Record>)
    requires a != [] && b != [] && a[|a| - 1] == b[|b| - 1] && a[..|a| - 1] == b[..|b| - 1]
    ensures a == b
  {
    assert a == a[..|a| - 1] + [a[|a| - 1]] && b == b[..|b| - 1] + [b[|b| - 1]];
  }

  /** There is only one stable sort: a sorted list is determined by its records of each order. */
  lemma {:induction false} StableSortIsUnique(a: seq<Record>, b: seq<Record>)
    requires Sorted(a) && Sorted(b) && ByOrder(a) == ByOrder(b)
    ensures a == b
    decreases |a|
  {
    if a == [] {
      EmptyByOrder(a, b);
    } else if b == [] {
      EmptyByOrder(b, a);
    } else {
      LastsByOrder(a, b);
      RestsByOrder(a, b);
      StableSortIsUnique(a[..|a| - 1], b[..|b| - 1]);
      SameEnds(a, b);
    }
  }

  lemma LastOf(s: seq<Record>, x: Record, t: seq<Record>, y: Record)
    requires s + [x] == t + [y]
    ensures s == t && x == y
  {
    assert |s| == |t| by { assert |s + [x]| == |t + [y]|; }
    assert (s + [x])[|s|] == (t + [y])[|t|];
    assert s == (s + [x])[..|s|] && t == (t + [y])[..|t|];
  }

  // ---- what the store holds ----

  ghost predicate Apart(s: seq<Record>) {
    forall i, j :: 0 <= i < j < |s| ==> !Same(s[i], s[j])
  }

  ghost predicate AllNormal(normal: iset<Record>, s: seq<Record>) {
    forall i :: 0 <= i < |s| ==> s[i] in normal
  }

  /** At most 64 normalised records with distinct ids and handles. */
  ghost predicate Valid(normal: iset<Record>, s: seq<Record>) {
    |s| <= MAX_SESSIONS && Apart(s) && AllNormal(normal, s)
  }

  ghost predicate AllGood(normal: iset<Record>, items: seq<Option<Record>>) {
    forall i :: 0 <= i < |items| && items[i].Some? ==> items[i].value in normal
  }

  lemma {:induction false} UniqueIsApart(normal: iset<Record>, kept: seq<Record>, items: seq<Option<Record>>)
    requires Apart(kept) && AllNormal(normal, kept) && AllGood(normal, items)
    ensures Apart(Unique(kept, items)) && AllNormal(normal, Unique(kept, items)) && kept <= Unique(kept, items)
    decreases |items|
  {
    if items != [] {
      if items[0].None? || Clashes(kept, items[0].value) {
        UniqueIsApart(normal, kept, items[1..]);
      } else {
        UniqueIsApart(normal, kept + [items[0].value], items[1..]);
      }
    }
  }

  lemma WrittenIsValid(normal: iset<Record>, items: seq<Option<Record>>)
    requires AllGood(normal, items)
    ensures Valid(normal, Written(items))
  {
    UniqueIsApart(normal, [], items);
  }

  lemma {:induction false} CollectIsApart(normal: iset<Record>, kept: seq<Record>, items: seq<Option<Record>>)
    requires Apart(kept) && AllNormal(normal, kept) && AllGood(normal, items) && Collect(kept, items).Some?
    ensures var r := Collect(kept, items).value; Apart(r) && AllNormal(normal, r) && |r| == |kept| + |items|
    decreases |items|
  {
    if items != [] { CollectIsApart(normal, kept + [items[0].value], items[1..]); }
  }

  function Present(s: seq<Record>): (r: seq<Option<Record>>)
    ensures |r| == |s| && forall i :: 0 <= i < |r| ==> r[i] == Some(s[i])
  {
    seq(|s|, i requires 0 <= i < |s| => Some(s[i]))
  }

  /** Records that are apart are all collected, in their order. */
  lemma {:induction false} CollectKeeps(kept: seq<Record>, rest: seq<Record>)
    requires Apart(kept + rest)
    ensures Collect(kept, Present(rest)) == Some(kept + rest)
    decreases |rest|
  {
    if rest == [] {
      assert kept + rest == kept;
    } else {
      var all := kept + rest;
      forall i | 0 <= i < |kept| ensures !Same(kept[i], rest[0]) { assert all[i] == kept[i] && all[|kept|] == rest[0]; }
      assert kept + [rest[0]] + rest[1..] == all;
      assert Present(rest)[1..] == Present(rest[1..]);
      CollectKeeps(kept + [rest[0]], rest[1..]);
    }
  }

  lemma {:induction false} WithoutIs(s: seq<Record>, surfaceId: Text)
    ensures |WithoutSurface(s, surfaceId)| <= |s|
    ensures forall r :: r in WithoutSurface(s, surfaceId) <==> r in s && r.surfaceId != surfaceId
  {
    if s != [] {
      WithoutIs(s[1..], surfaceId);
      assert s == [s[0]] + s[1..];
    }
  }

  lemma {:induction false} WithoutIsApart(s: seq<Record>, surfaceId: Text)
    requires Apart(s)
    ensures Apart(WithoutSurface(s, surfaceId))
  {
    if s != [] {
      var rest := s[1..];
      WithoutIsApart(rest, surfaceId);
      WithoutIs(rest, surfaceId);
      var kept := WithoutSurface(rest, surfaceId);
      forall j | 0 <= j < |kept| ensures !Same(s[0], kept[j]) { assert kept[j] in rest; }
    }
  }

  lemma RemoveKeeps(normal: iset<Record>, s: seq<Record>, surfaceId: Text)
    requires Valid(normal, s)
    ensures Valid(normal, WithoutSurface(s, surfaceId))
  {
    WithoutIs(s, surfaceId);
    WithoutIsApart(s, surfaceId);
    var kept := WithoutSurface(s, surfaceId);
    forall i | 0 <= i < |kept| ensures kept[i] in normal { assert kept[i] in s; }
  }

  lemma {:induction false} InsertIsApart(sorted: seq<Record>, r: Record)
    requires Apart(sorted) && forall i :: 0 <= i < |sorted| ==> !Same(sorted[i], r)
    ensures Apart(Insert(sorted, r))
  {
    if sorted != [] && sorted[|sorted| - 1].order > r.order {
      var rest, last := sorted[..|sorted| - 1], sorted[|sorted| - 1];
      InsertIsApart(rest, r);
      InsertMembers(rest, r);
      var inner := Insert(rest, r);
      forall i | 0 <= i < |inner| ensures !Same(inner[i], last) { assert inner[i] in inner; }
    }
  }

  lemma {:induction false} SortIsApart(s: seq<Record>)
    requires Apart(s)
    ensures Apart(Sort(s)) && |Sort(s)| == |s| && forall x :: x in Sort(s) <==> x in s
  {
    if s != [] {
      var rest, last := s[..|s| - 1], s[|s| - 1];
      assert s == rest + [last];
      SortIsApart(rest);
      InsertMembers(Sort(rest), last);
      forall i | 0 <= i < |Sort(rest)| ensures !Same(Sort(rest)[i], last) { assert Sort(rest)[i] in rest; }
      InsertIsApart(Sort(rest), last);
    }
  }

  lemma KeptApart(s: seq<Record>, r: Record)
    requires Apart(s) && !HandleTaken(WithoutSurface(s, r.surfaceId), r.handle)
    ensures Apart(WithoutSurface(s, r.surfaceId) + [r])
  {
    var kept := WithoutSurface(s, r.surfaceId);
    WithoutIs(s, r.surfaceId);
    WithoutIsApart(s, r.surfaceId);
    forall i | 0 <= i < |kept| ensures !Same(kept[i], r) { assert kept[i] in kept; }
  }

  lemma UpsertKeeps(normal: iset<Record>, s: seq<Record>, r: Record)
    requires Valid(normal, s) && r in normal && Upserted(s, r).Some?
    ensures Valid(normal, Upserted(s, r).value)
  {
    var kept := WithoutSurface(s, r.surfaceId);
    RemoveKeeps(normal, s, r.surfaceId);
    KeptApart(s, r);
    SortIsApart(kept + [r]);
    var sorted := Sort(kept + [r]);
    forall i | 0 <= i < |sorted| ensures sorted[i] in normal { assert sorted[i] in kept + [r]; }
  }

  // ---- what an upsert at the limit drops ----

  function CountUpTo(s: seq<Record>, order: int): (n: nat)
    ensures n <= |s|
  {
    if s == [] then 0 else CountUpTo(s[..|s| - 1], order) + (if s[|s| - 1].order <= order then 1 else 0)
  }

  lemma {:induction false} CountAll(s: seq<Record>, order: int)
    requires forall i :: 0 <= i < |s| ==> s[i].order <= order
    ensures CountUpTo(s, order) == |s|
  {
    if s != [] { CountAll(s[..|s| - 1], order); }
  }

  /** A record is inserted right behind those whose order is not greater. */
  lemma {:induction false} InsertedAt(sorted: seq<Record>, r: Record)
    requires Sorted(sorted)
    ensures var n := CountUpTo(sorted, r.order);
            && |Insert(sorted, r)| == |sorted| + 1 && Insert(sorted, r)[n] == r
            && Insert(sorted, r)[..n] == sorted[..n]
  {
    if sorted != [] && sorted[|sorted| - 1].order > r.order {
      var rest := sorted[..|sorted| - 1];
      InsertedAt(rest, r);
      var n := CountUpTo(rest, r.order);
      assert Insert(sorted, r)[..n] == Insert(rest, r)[..n] && rest[..n] == sorted[..n];
    } else {
      forall i | 0 <= i < |sorted| ensures sorted[i].order <= r.order { }
      CountAll(sorted, r.order);
    }
  }

  lemma {:induction false} InsertCounts(sorted: seq<Record>, r: Record, order: int)
    ensures CountUpTo(Insert(sorted, r), order) == CountUpTo(sorted, order) + (if r.order <= order then 1 else 0)
  {
    if sorted != [] && sorted[|sorted| - 1].order > r.order {
      var rest, last := sorted[..|sorted| - 1], sorted[|sorted| - 1];
      InsertCounts(rest, r, order);
      assert (Insert(rest, r) + [last])[..|Insert(rest, r)|] == Insert(rest, r);
    } else {
      assert (sorted + [r])[..|sorted|] == sorted;
    }
  }

  lemma {:induction false} SortCounts(s: seq<Record>, order: int)
    ensures CountUpTo(Sort(s), order) == CountUpTo(s, order)
  {
    if s != [] {
      SortCounts(s[..|s| - 1], order);
      InsertCounts(Sort(s[..|s| - 1]), s[|s| - 1], order);
    }
  }

  /**
   The record of an upsert is itself dropped exactly when 64 other records already come before it; otherwise it is
   stored right behind them.
   */
  lemma UpsertStoresUnlessFull(s: seq<Record>, r: Record)
    requires Apart(s) && Upserted(s, r).Some?
    ensures r in Upserted(s, r).value <==> CountUpTo(WithoutSurface(s, r.surfaceId), r.order) < MAX_SESSIONS
  {
    var kept := WithoutSurface(s, r.surfaceId);
    assert (kept + [r])[..|kept|] == kept;
    SortIsStable(kept, 0);
    SortCounts(kept, r.order);
    InsertedAt(Sort(kept), r);
    KeptApart(s, r);
    SortIsApart(kept + [r]);
    var sorted, n := Sort(kept + [r]), CountUpTo(kept, r.order);
    assert sorted[n] == r;
    if n >= MAX_SESSIONS {
      forall i | 0 <= i < MAX_SESSIONS ensures sorted[i] != r { assert !Same(sorted[i], sorted[n]); }
    }
  }
}
