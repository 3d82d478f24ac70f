/** What bounding promises: it ends on every graph, its results fit the limits, and what fits is left as it is. */
module BoundingTheorems {
  import opened Wrappers
  import opened Utf16
  import opened Utf8
  import opened Bounding

  // ---- the limits ----

  predicate GoodKey(key: Text) {
    key != PROTO && ByteLength(key) <= MAX_STRING_BYTES
  }

  predicate DistinctKeys(entries: seq<Entry>) {
    forall i, j :: 0 <= i < j < |entries| ==> entries[i].key != entries[j].key
  }

  /** Within the limits, with at most so many levels of arrays and objects. */
  predicate Fits(j: Json, levels: nat)
    decreases levels, 1
  {
    match j
    case JText(text) => ByteLength(text) <= MAX_STRING_BYTES
    case JArray(items) => levels > 0 && |items| <= MAX_ARRAY_ITEMS && ItemsFit(items, levels)
    case JObject(entries) => levels > 0 && |entries| <= MAX_OBJECT_KEYS && EntriesFit(entries, levels)
    case _ => true
  }

  predicate ItemsFit(items: seq<Json>, levels: nat)
    requires levels > 0
    decreases levels, 0
  {
    forall i :: 0 <= i < |items| ==> Fits(items[i], levels - 1)
  }

  predicate EntriesFit(entries: seq<Entry>, levels: nat)
    requires levels > 0
    decreases levels, 0
  {
    DistinctKeys(entries) && forall i :: 0 <= i < |entries| ==> GoodKey(entries[i].key) && Fits(entries[i].value, levels - 1)
  }

  lemma {:induction false} AtMostThree(s: Text)
    ensures ByteLength(s) <= 3 * |s|
    decreases |s|
  {
    if s != [] { AtMostThree(if StartsPair(s) then s[2..] else s[1..]); }
  }

  lemma PutFits(entries: seq<Entry>, key: Text, value: Json, levels: nat)
    requires levels > 0 && EntriesFit(entries, levels) && ByteLength(key) <= MAX_STRING_BYTES && Fits(value, levels - 1)
    ensures EntriesFit(Put(entries, key, value), levels) && |entries| <= |Put(entries, key, value)| <= |entries| + 1
  {
  }

  lemma {:induction false} ItemsOfResultFit<R>(graph: R -> Node<R>, items: seq<Value<R>>, depth: nat, seen: set<R>)
    requires 0 < depth <= MAX_DEPTH
    ensures |BoundItems(graph, items, depth, seen)| == |items|
    ensures ItemsFit(BoundItems(graph, items, depth, seen), MAX_DEPTH - depth + 1)
    decreases MAX_DEPTH - depth, 1, |items|
  {
    if items != [] {
      var n := |items| - 1;
      ItemsOfResultFit(graph, items[..n], depth, seen);
      ResultFits(graph, items[n], depth, seen);
    }
  }

  lemma {:induction false} MembersOfResultFit<R>(graph: R -> Node<R>, members: seq<Member<R>>, depth: nat, seen: set<R>)
    requires 0 < depth <= MAX_DEPTH
    ensures |BoundMembers(graph, members, depth, seen)| <= |members|
    ensures EntriesFit(BoundMembers(graph, members, depth, seen), MAX_DEPTH - depth + 1)
    decreases MAX_DEPTH - depth, 1, |members|
  {
    if members != [] {
      var n := |members| - 1;
      MembersOfResultFit(graph, members[..n], depth, seen);
      ResultFits(graph, members[n].value, depth, seen);
      BoundTextIsLongest(members[n].key, MAX_STRING_BYTES);
      PutFits(BoundMembers(graph, members[..n], depth, seen), BoundText(members[n].key, MAX_STRING_BYTES),
              BoundValue(graph, members[n].value, depth, seen), MAX_DEPTH - depth + 1);
    }
  }

  lemma FixedTextsFit(which: Special)
    ensures ByteLength(REDACTED) <= MAX_STRING_BYTES && ByteLength(NameOf(which)) <= MAX_STRING_BYTES
  {
    AtMostThree(REDACTED);
    AtMostThree(NameOf(which));
  }

  lemma ArrayFits(items: seq<Json>, levels: nat)
    requires levels > 0 && |items| <= MAX_ARRAY_ITEMS && ItemsFit(items, levels)
    ensures Fits(JArray(items), levels)
  {
  }

  lemma ObjectFits(entries: seq<Entry>, levels: nat)
    requires levels > 0 && |entries| <= MAX_OBJECT_KEYS && EntriesFit(entries, levels)
    ensures Fits(JObject(entries), levels)
  {
  }

  lemma {:induction false} ArrayResultFits<R>(graph: R -> Node<R>, items: seq<Value<R>>, depth: nat, seen: set<R>)
    requires depth < MAX_DEPTH && |items| <= MAX_ARRAY_ITEMS
    ensures Fits(JArray(BoundItems(graph, items, depth + 1, seen)), MAX_DEPTH - depth)
    decreases MAX_DEPTH - depth - 1, 2, 0
  {
    ItemsOfResultFit(graph, items, depth + 1, seen);
    ArrayFits(BoundItems(graph, items, depth + 1, seen), MAX_DEPTH - depth);
  }

  lemma {:induction false} ObjectResultFits<R>(graph: R -> Node<R>, members: seq<Member<R>>, depth: nat, seen: set<R>)
    requires depth < MAX_DEPTH && |members| <= MAX_OBJECT_KEYS
    ensures Fits(JObject(BoundMembers(graph, members, depth + 1, seen)), MAX_DEPTH - depth)
    decreases MAX_DEPTH - depth - 1, 2, 0
  {
    var entries := MembersBound(graph, members, depth + 1, seen, MAX_DEPTH - depth);
    ObjectFits(entries, MAX_DEPTH - depth);
  }

  lemma {:induction false} MembersBound<R>(graph: R -> Node<R>, members: seq<Member<R>>, depth: nat, seen: set<R>, levels: nat)
    returns (entries: seq<Entry>)
    requires 0 < depth <= MAX_DEPTH && levels == MAX_DEPTH - depth + 1
    ensures entries == BoundMembers(graph, members, depth, seen) && |entries| <= |members| && EntriesFit(entries, levels)
    decreases MAX_DEPTH - depth, 1, |members| + 1
  {
    entries := BoundMembers(graph, members, depth, seen);
    MembersOfResultFit(graph, members, depth, seen);
  }

  lemma {:induction false} RefResultFits<R>(graph: R -> Node<R>, r: R, depth: nat, seen: set<R>)
    requires depth < MAX_DEPTH && r !in seen
    ensures Fits(BoundValue(graph, Ref(r), depth, seen), MAX_DEPTH - depth)
    decreases MAX_DEPTH - depth - 1, 3, 0
  {
    match graph(r)
    case Array(items) => ArrayResultFits(graph, First(items, MAX_ARRAY_ITEMS), depth, seen + {r});
    case Object(members) => ObjectResultFits(graph, First(members, MAX_OBJECT_KEYS), depth, seen + {r});
  }

  lemma ScalarFits<R>(graph: R -> Node<R>, value: Value<R>, depth: nat, seen: set<R>)
    requires value.Ref? ==> depth >= MAX_DEPTH || value.r in seen
    ensures forall levels: nat :: Fits(BoundValue(graph, value, depth, seen), levels)
  {
    match value
    case NotFinite(which) => FixedTextsFit(which);
    case Str(text) => BoundTextIsLongest(text, MAX_STRING_BYTES);
    case Printed(text) => BoundTextIsLongest(text, MAX_STRING_BYTES);
    case Ref(r) => FixedTextsFit(NaN);
    case _ =>
  }

  /** Whatever the graph, cycles included, the result is within the limits. */
  lemma {:induction false} ResultFits<R>(graph: R -> Node<R>, value: Value<R>, depth: nat, seen: set<R>)
    requires depth <= MAX_DEPTH
    ensures Fits(BoundValue(graph, value, depth, seen), MAX_DEPTH - depth)
    decreases MAX_DEPTH - depth, 0, 0
  {
    if value.Ref? && depth < MAX_DEPTH && value.r !in seen {
      RefResultFits(graph, value.r, depth, seen);
    } else {
      ScalarFits(graph, value, depth, seen);
    }
  }

  // ---- JSON as a graph ----

  function Height(j: Json): nat {
    match j
    case JArray(items) => 1 + HeightOfItems(items)
    case JObject(entries) => 1 + HeightOfEntries(entries)
    case _ => 0
  }

  function HeightOfItems(items: seq<Json>): (h: nat)
    ensures forall i :: 0 <= i < |items| ==> Height(items[i]) <= h
  {
    if items == [] then 0
    else
      var first, rest := Height(items[0]), HeightOfItems(items[1..]);
      assert forall i :: 0 < i < |items| ==> items[i] == items[1..][i - 1];
      if first > rest then first else rest
  }

  function HeightOfEntries(entries: seq<Entry>): (h: nat)
    ensures forall i :: 0 <= i < |entries| ==> Height(entries[i].value) <= h
  {
    if entries == [] then 0
    else
      var first, rest := Height(entries[0].value), HeightOfEntries(entries[1..]);
      assert forall i :: 0 < i < |entries| ==> entries[i] == entries[1..][i - 1];
      if first > rest then first else rest
  }

  /** A JSON value as a value of a page, where every array and object is its own reference. */
  function ValueOf(j: Json): Value<Json> {
    match j
    case JNull => Null
    case JBool(b) => Bool(b)
    case JNumber(n) => Number(n)
    case JText(text) => Str(text)
    case JArray(_) => Ref(j)
    case JObject(_) => Ref(j)
  }

  function ValuesOf(items: seq<Json>): (r: seq<Value<Json>>)
    ensures |r| == |items| && forall i :: 0 <= i < |r| ==> r[i] == ValueOf(items[i])
  {
    seq(|items|, i requires 0 <= i < |items| => ValueOf(items[i]))
  }

  function MembersOf(entries: seq<Entry>): (r: seq<Member<Json>>)
    ensures |r| == |entries| && forall i :: 0 <= i < |r| ==> r[i] == Member(entries[i].key, ValueOf(entries[i].value))
  {
    seq(|entries|, i requires 0 <= i < |entries| => Member(entries[i].key, ValueOf(entries[i].value)))
  }

  function NodeOf(j: Json): Node<Json> {
    match j
    case JArray(items) => Array(ValuesOf(items))
    case JObject(entries) => Object(MembersOf(entries))
    case _ => Array([])
  }

  ghost predicate AllHigher(seen: set<Json>, h: nat) {
    forall a :: a in seen ==> Height(a) > h
  }

  lemma LastItem<R>(graph: R -> Node<R>, items: seq<Value<R>>, n: nat, depth: nat, seen: set<R>)
    requires 0 < n <= |items|
    ensures BoundItems(graph, items[..n], depth, seen) ==
            BoundItems(graph, items[..n - 1], depth, seen) + [BoundValue(graph, items[n - 1], depth, seen)]
  {
    assert items[..n][..n - 1] == items[..n - 1];
  }

  lemma {:induction false} ItemsUnchanged(items: seq<Json>, n: nat, depth: nat, seen: set<Json>)
    requires n <= |items| && 0 < depth <= MAX_DEPTH && ItemsFit(items, MAX_DEPTH - depth + 1)
    requires AllHigher(seen, HeightOfItems(items))
    ensures BoundItems(NodeOf, ValuesOf(items)[..n], depth, seen) == items[..n]
    decreases MAX_DEPTH - depth, 1, n
  {
    if n > 0 {
      ItemsUnchanged(items, n - 1, depth, seen);
      assert AllHigher(seen, Height(items[n - 1]));
      Unchanged(items[n - 1], depth, seen);
      LastItem(NodeOf, ValuesOf(items), n, depth, seen);
      assert items[..n] == items[..n - 1] + [items[n - 1]];
    }
  }

  lemma {:induction false} EntriesUnchanged(entries: seq<Entry>, n: nat, depth: nat, seen: set<Json>)
    requires n <= |entries| && 0 < depth <= MAX_DEPTH && EntriesFit(entries, MAX_DEPTH - depth + 1)
    requires AllHigher(seen, HeightOfEntries(entries))
    ensures BoundMembers(NodeOf, MembersOf(entries)[..n], depth, seen) == entries[..n]
    decreases MAX_DEPTH - depth, 1, n
  {
    if n > 0 {
      var last := entries[n - 1];
      EntriesUnchanged(entries, n - 1, depth, seen);
      assert AllHigher(seen, Height(last.value));
      Unchanged(last.value, depth, seen);
      assert MembersOf(entries)[..n][..n - 1] == MembersOf(entries)[..n - 1];
      PutNew(entries, n - 1);
    }
  }

  lemma {:induction false} AllEntriesUnchanged(entries: seq<Entry>, depth: nat, seen: set<Json>)
    requires 0 < depth <= MAX_DEPTH && EntriesFit(entries, MAX_DEPTH - depth + 1)
    requires AllHigher(seen, HeightOfEntries(entries))
    ensures BoundMembers(NodeOf, MembersOf(entries), depth, seen) == entries
    decreases MAX_DEPTH - depth, 2, 0
  {
    EntriesUnchanged(entries, |entries|, depth, seen);
    assert MembersOf(entries)[..|entries|] == MembersOf(entries) && entries[..|entries|] == entries;
  }

  lemma PutNew(entries: seq<Entry>, n: nat)
    requires n < |entries| && DistinctKeys(entries) && entries[n].key != PROTO
    ensures Put(entries[..n], entries[n].key, entries[n].value) == entries[..n + 1]
  {
    var i := IndexOf(entries[..n], entries[n].key);
    assert forall j :: 0 <= j < n ==> entries[..n][j].key != entries[n].key;
    assert i == n;
    assert entries[..n + 1] == entries[..n] + [entries[n]];
  }

  lemma WholeArray(items: seq<Json>, depth: nat, seen: set<Json>)
    requires depth < MAX_DEPTH && |items| <= MAX_ARRAY_ITEMS && JArray(items) !in seen
    ensures BoundValue(NodeOf, Ref(JArray(items)), depth, seen)
            == JArray(BoundItems(NodeOf, ValuesOf(items), depth + 1, seen + {JArray(items)}))
  {
  }

  lemma WholeObject(entries: seq<Entry>, depth: nat, seen: set<Json>)
    requires depth < MAX_DEPTH && |entries| <= MAX_OBJECT_KEYS && JObject(entries) !in seen
    ensures BoundValue(NodeOf, Ref(JObject(entries)), depth, seen)
            == JObject(BoundMembers(NodeOf, MembersOf(entries), depth + 1, seen + {JObject(entries)}))
  {
  }

  lemma {:induction false} ArrayUnchanged(items: seq<Json>, depth: nat, seen: set<Json>)
    requires depth < MAX_DEPTH && |items| <= MAX_ARRAY_ITEMS && ItemsFit(items, MAX_DEPTH - depth)
    requires AllHigher(seen, Height(JArray(items)))
    ensures BoundValue(NodeOf, Ref(JArray(items)), depth, seen) == JArray(items)
    decreases MAX_DEPTH - depth - 1, 2, 0
  {
    WholeArray(items, depth, seen);
    ItemsUnchanged(items, |items|, depth + 1, seen + {JArray(items)});
    assert ValuesOf(items)[..|items|] == ValuesOf(items) && items[..|items|] == items;
  }

  lemma BelowItself(entries: seq<Entry>, seen: set<Json>)
    requires AllHigher(seen, Height(JObject(entries)))
    ensures JObject(entries) !in seen && AllHigher(seen + {JObject(entries)}, HeightOfEntries(entries))
  {
  }

  lemma {:induction false} ObjectUnchanged(entries: seq<Entry>, depth: nat, seen: set<Json>)
    requires depth < MAX_DEPTH && |entries| <= MAX_OBJECT_KEYS && EntriesFit(entries, MAX_DEPTH - depth)
    requires AllHigher(seen, Height(JObject(entries)))
    ensures BoundValue(NodeOf, Ref(JObject(entries)), depth, seen) == JObject(entries)
    decreases MAX_DEPTH - depth - 1, 3, 0
  {
    BelowItself(entries, seen);
    WholeObject(entries, depth, seen);
    AllEntriesUnchanged(entries, depth + 1, seen + {JObject(entries)});
  }

  lemma {:induction false} Unchanged(j: Json, depth: nat, seen: set<Json>)
    requires depth <= MAX_DEPTH && Fits(j, MAX_DEPTH - depth) && AllHigher(seen, Height(j))
    ensures BoundValue(NodeOf, ValueOf(j), depth, seen) == j
    decreases MAX_DEPTH - depth, 0, 0
  {
    match j
    case JArray(items) => ArrayUnchanged(items, depth, seen);
    case JObject(entries) => ObjectUnchanged(entries, depth, seen);
    case _ =>
  }

  /** A JSON value is left as it is exactly when it is within the limits. */
  lemma UnchangedExactlyWhenItFits(j: Json)
    ensures BoundValue(NodeOf, ValueOf(j), 0, {}) == j <==> Fits(j, MAX_DEPTH)
  {
    ResultFits(NodeOf, ValueOf(j), 0, {});
    if Fits(j, MAX_DEPTH) { Unchanged(j, 0, {}); }
  }

  /** Bounding twice is bounding once, for every value of every graph. */
  lemma BoundingIsIdempotent<R>(graph: R -> Node<R>, value: Value<R>)
    ensures var once := BoundValue(graph, value, 0, {}); BoundValue(NodeOf, ValueOf(once), 0, {}) == once
  {
    ResultFits(graph, value, 0, {});
    UnchangedExactlyWhenItFits(BoundValue(graph, value, 0, {}));
  }

  // ---- the recursion as the source runs it, with one set that is changed and restored ----

  class SeenSet<R(==)> {
    var objects: set<R>
    constructor ()
      ensures objects == {}
    {
      objects := {};
    }
  }

  method BoundValueWith<R(==)>(graph: R -> Node<R>, value: Value<R>, depth: nat, seen: SeenSet<R>) returns (j: Json)
    modifies seen
    ensures j == BoundValue(graph, value, depth, old(seen.objects))
    ensures seen.objects == old(seen.objects)
    decreases MAX_DEPTH - depth
  {
    match value
    case Null => return JNull;
    case Bool(b) => return JBool(b);
    case Number(n) => return JNumber(n);
    case NotFinite(which) => return JText(NameOf(which));
    case Str(text) =>
      var t := BoundString(text, MAX_STRING_BYTES);
      return JText(t);
    case Printed(text) =>
      var t := BoundString(text, MAX_STRING_BYTES);
      return JText(t);
    case Ref(r) =>
      if depth >= MAX_DEPTH || r in seen.objects { return JText(REDACTED); }
      seen.objects := seen.objects + {r};
      match graph(r) {
        case Array(items) =>
          var result := BoundEachItem(graph, First(items, MAX_ARRAY_ITEMS), depth, seen);
          j := JArray(result);
        case Object(members) =>
          var result := BoundEachMember(graph, First(members, MAX_OBJECT_KEYS), depth, seen);
          j := JObject(result);
      }
      seen.objects := seen.objects - {r};
  }

  method BoundEachItem<R(==)>(graph: R -> Node<R>, items: seq<Value<R>>, depth: nat, seen: SeenSet<R>) returns (result: seq<Json>)
    requires depth < MAX_DEPTH
    modifies seen
    ensures result == BoundItems(graph, items, depth + 1, old(seen.objects))
    ensures seen.objects == old(seen.objects)
    decreases MAX_DEPTH - depth, 0
  {
    result := [];
    var i := 0;
    while i < |items|
      invariant 0 <= i <= |items| && seen.objects == old(seen.objects)
      invariant result == BoundItems(graph, items[..i], depth + 1, old(seen.objects))
    {
      var j := BoundValueWith(graph, items[i], depth + 1, seen);
      assert items[..i + 1][..i] == items[..i];
      result := result + [j];
      i := i + 1;
    }
    assert items[..i] == items;
  }

  method BoundEachMember<R(==)>(graph: R -> Node<R>, members: seq<Member<R>>, depth: nat, seen: SeenSet<R>) returns (result: seq<Entry>)
    requires depth < MAX_DEPTH
    modifies seen
    ensures result == BoundMembers(graph, members, depth + 1, old(seen.objects))
    ensures seen.objects == old(seen.objects)
    decreases MAX_DEPTH - depth, 0
  {
    result := [];
    var i := 0;
    while i < |members|
      invariant 0 <= i <= |members| && seen.objects == old(seen.objects)
      invariant result == BoundMembers(graph, members[..i], depth + 1, old(seen.objects))
    {
      var key := BoundString(members[i].key, MAX_STRING_BYTES);
      var j := BoundValueWith(graph, members[i].value, depth + 1, seen);
      assert members[..i + 1][..i] == members[..i];
      result := Put(result, key, j);
      i := i + 1;
    }
    assert members[..i] == members;
  }
}
