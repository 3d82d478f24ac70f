/** What is left of a value that is bounded. */
module BoundingEffects {
  import opened Wrappers
  import opened Utf16
  import opened Utf8
  import opened Bounding
  import opened BoundingTheorems

  /** Plain values stay; numbers that are not finite are named; text is cut to the longest prefix of 16384 bytes. */
  lemma PlainValuesStay<R>(graph: R -> Node<R>, value: Value<R>, depth: nat, seen: set<R>)
    requires !value.Ref?
    ensures match value
            case Null => BoundValue(graph, value, depth, seen) == JNull
            case Bool(b) => BoundValue(graph, value, depth, seen) == JBool(b)
            case Number(n) => BoundValue(graph, value, depth, seen) == JNumber(n)
            case NotFinite(NaN) => BoundValue(graph, value, depth, seen) == JText(Ascii("NaN"))
            case NotFinite(Infinity) => BoundValue(graph, value, depth, seen) == JText(Ascii("Infinity"))
            case NotFinite(NegativeInfinity) => BoundValue(graph, value, depth, seen) == JText(Ascii("-Infinity"))
            case Str(text) => CutOf(text, BoundValue(graph, value, depth, seen))
            case Printed(text) => CutOf(text, BoundValue(graph, value, depth, seen))
  {
    if value.Str? || value.Printed? { BoundTextIsLongest(value.text, MAX_STRING_BYTES); }
  }

  /** The longest prefix that fits. */
  ghost predicate CutOf(text: Text, j: Json) {
    && j.JText? && j.text <= text && ByteLength(j.text) <= 16384
    && forall n :: |j.text| < n <= |text| ==> ByteLength(text[..n]) > 16384
  }

  /** An object that contains itself, or stands below eight others, is redacted. */
  lemma DeepAndCyclicIsRedacted<R>(graph: R -> Node<R>, r: R, depth: nat, seen: set<R>)
    requires depth >= 8 || r in seen
    ensures BoundValue(graph, Ref(r), depth, seen) == JText(Ascii("[redacted]"))
  {
  }

  lemma {:induction false} ItemsOneByOne<R>(graph: R -> Node<R>, items: seq<Value<R>>, depth: nat, seen: set<R>)
    ensures var js := BoundItems(graph, items, depth, seen);
            |js| == |items| && forall i :: 0 <= i < |js| ==> js[i] == BoundValue(graph, items[i], depth, seen)
    decreases |items|
  {
    if items != [] {
      var n := |items| - 1;
      ItemsOneByOne(graph, items[..n], depth, seen);
    }
  }

  /** Of an array the first 256 items are left, each bounded one level deeper. */
  lemma ArrayKeepsItsFirstItems<R>(graph: R -> Node<R>, r: R, depth: nat, seen: set<R>)
    requires depth < 8 && r !in seen && graph(r).Array?
    ensures var items := graph(r).items;
            var j := BoundValue(graph, Ref(r), depth, seen);
            && j.JArray? && |j.items| == (if |items| <= 256 then |items| else 256)
            && forall i :: 0 <= i < |j.items| ==> j.items[i] == BoundValue(graph, items[i], depth + 1, seen + {r})
  {
    ItemsOneByOne(graph, First(graph(r).items, MAX_ARRAY_ITEMS), depth + 1, seen + {r});
  }

  // ---- objects ----

  function Shortened(key: Text): Text {
    BoundText(key, MAX_STRING_BYTES)
  }

  /** The last of the members whose shortened key is the given one. */
  ghost predicate IsLast<R>(members: seq<Member<R>>, key: Text, k: nat) {
    && k < |members| && Shortened(members[k].key) == key
    && forall i :: k < i < |members| ==> Shortened(members[i].key) != key
  }

  /** Every entry stems from the last member of its key. */
  ghost predicate Stems<R>(graph: R -> Node<R>, members: seq<Member<R>>, depth: nat, seen: set<R>, entry: Entry) {
    entry.key != PROTO
    && exists k: nat :: IsLast(members, entry.key, k) && entry.value == BoundValue(graph, members[k].value, depth, seen)
  }

  ghost predicate Has(entries: seq<Entry>, key: Text) {
    exists i :: 0 <= i < |entries| && entries[i].key == key
  }

  lemma StemsStays<R>(graph: R -> Node<R>, members: seq<Member<R>>, depth: nat, seen: set<R>, entry: Entry)
    requires members != [] && Stems(graph, members[..|members| - 1], depth, seen, entry)
    requires Shortened(members[|members| - 1].key) != entry.key
    ensures Stems(graph, members, depth, seen, entry)
  {
    var rest := members[..|members| - 1];
    var k: nat :| IsLast(rest, entry.key, k) && entry.value == BoundValue(graph, rest[k].value, depth, seen);
    assert IsLast(members, entry.key, k);
  }

  lemma {:induction false} MembersStem<R>(graph: R -> Node<R>, members: seq<Member<R>>, depth: nat, seen: set<R>)
    ensures var entries := BoundMembers(graph, members, depth, seen);
            forall i :: 0 <= i < |entries| ==> Stems(graph, members, depth, seen, entries[i])
    decreases |members|
  {
    if members != [] {
      var n := |members| - 1;
      var rest, last := members[..n], members[n];
      var before, entries := BoundMembers(graph, rest, depth, seen), BoundMembers(graph, members, depth, seen);
      MembersStem(graph, rest, depth, seen);
      MembersDiffer(graph, rest, depth, seen);
      forall i | 0 <= i < |entries| ensures Stems(graph, members, depth, seen, entries[i]) {
        if entries[i].key == Shortened(last.key) {
          PutHolds(before, Shortened(last.key), BoundValue(graph, last.value, depth, seen), i);
          assert IsLast(members, entries[i].key, n);
        } else {
          PutKeeps(before, Shortened(last.key), BoundValue(graph, last.value, depth, seen), i);
          StemsStays(graph, members, depth, seen, entries[i]);
        }
      }
    }
  }

  lemma PutHolds(entries: seq<Entry>, key: Text, value: Json, i: nat)
    requires DistinctKeys(entries) && i < |Put(entries, key, value)| && Put(entries, key, value)[i].key == key
    requires forall j :: 0 <= j < |entries| ==> entries[j].key != PROTO
    ensures key != PROTO && Put(entries, key, value)[i].value == value
  {
  }

  lemma PutKeeps(entries: seq<Entry>, key: Text, value: Json, i: nat)
    requires i < |Put(entries, key, value)| && Put(entries, key, value)[i].key != key
    ensures i < |entries| && entries[i] == Put(entries, key, value)[i]
  {
  }

  lemma {:induction false} MembersDiffer<R>(graph: R -> Node<R>, members: seq<Member<R>>, depth: nat, seen: set<R>)
    ensures var entries := BoundMembers(graph, members, depth, seen);
            DistinctKeys(entries) && forall j :: 0 <= j < |entries| ==> entries[j].key != PROTO
    decreases |members|
  {
    if members != [] {
      var n := |members| - 1;
      MembersDiffer(graph, members[..n], depth, seen);
    }
  }

  // ---- the order of the keys ----

  /** The shortened keys of the members. */
  function Keys<R>(members: seq<Member<R>>): (keys: seq<Text>)
    ensures |keys| == |members| && forall k :: 0 <= k < |keys| ==> keys[k] == Shortened(members[k].key)
  {
    seq(|members|, k requires 0 <= k < |members| => Shortened(members[k].key))
  }

  ghost predicate FirstAt(keys: seq<Text>, key: Text, k: nat) {
    k < |keys| && keys[k] == key && forall i :: 0 <= i < k ==> keys[i] != key
  }

  /** No key is lost but the one that sets the prototype, and none is added. */
  ghost predicate SameKeys(keys: seq<Text>, entries: seq<Entry>) {
    && (forall k :: 0 <= k < |keys| && keys[k] != PROTO ==> Has(entries, keys[k]))
    && forall i :: 0 <= i < |entries| ==> entries[i].key in keys
  }

  /** The entries stand in the order in which their keys come first. */
  ghost predicate InOrder(keys: seq<Text>, entries: seq<Entry>) {
    forall i, j, a: nat, b: nat ::
      0 <= i < j < |entries| && FirstAt(keys, entries[i].key, a) && FirstAt(keys, entries[j].key, b) ==> a < b
  }

  lemma PutHas(entries: seq<Entry>, key: Text, value: Json, k: Text)
    requires k != PROTO && (Has(entries, k) || k == key)
    ensures Has(Put(entries, key, value), k)
  {
    var after := Put(entries, key, value);
    if Has(entries, k) {
      var i :| 0 <= i < |entries| && entries[i].key == k;
      assert after[i].key == k;
    } else {
      assert after[|entries|].key == k;
    }
  }

  lemma PutSameKeys(keys: seq<Text>, entries: seq<Entry>, key: Text, value: Json)
    requires SameKeys(keys, entries)
    ensures SameKeys(keys + [key], Put(entries, key, value))
  {
    var now, after := keys + [key], Put(entries, key, value);
    forall k | 0 <= k < |now| && now[k] != PROTO ensures Has(after, now[k]) {
      PutHas(entries, key, value, now[k]);
    }
    forall i | 0 <= i < |after| ensures after[i].key in now {
      if i < |entries| {
        assert after[i].key == entries[i].key;
      } else {
        assert after[i].key == now[|keys|];
      }
    }
  }

  lemma FirstStays(keys: seq<Text>, key: Text, k: Text, a: nat)
    requires k in keys && FirstAt(keys + [key], k, a)
    ensures FirstAt(keys, k, a)
  {
    var n :| 0 <= n < |keys| && keys[n] == k;
    assert (keys + [key])[n] == k;
    assert forall i :: 0 <= i < a ==> keys[i] == (keys + [key])[i];
  }

  lemma PutInOrder(keys: seq<Text>, entries: seq<Entry>, key: Text, value: Json)
    requires SameKeys(keys, entries) && InOrder(keys, entries)
    ensures InOrder(keys + [key], Put(entries, key, value))
  {
    var now, after := keys + [key], Put(entries, key, value);
    forall i, j, a: nat, b: nat |
      0 <= i < j < |after| && FirstAt(now, after[i].key, a) && FirstAt(now, after[j].key, b)
      ensures a < b
    {
      assert after[i].key == entries[i].key && entries[i].key in keys;
      FirstStays(keys, key, entries[i].key, a);
      if j < |entries| {
        assert after[j].key == entries[j].key && entries[j].key in keys;
        FirstStays(keys, key, entries[j].key, b);
      } else if b < |keys| {
        assert false;
      }
    }
  }

  lemma KeysOfLast<R>(members: seq<Member<R>>)
    requires members != []
    ensures var n := |members| - 1; Keys(members) == Keys(members[..n]) + [Shortened(members[n].key)]
  {
  }

  lemma {:induction false} KeysInOrder<R>(graph: R -> Node<R>, members: seq<Member<R>>, depth: nat, seen: set<R>)
    ensures var entries := BoundMembers(graph, members, depth, seen);
            SameKeys(Keys(members), entries) && InOrder(Keys(members), entries)
    decreases |members|
  {
    if members != [] {
      var n := |members| - 1;
      var rest := members[..n];
      KeysInOrder(graph, rest, depth, seen);
      var before, key := BoundMembers(graph, rest, depth, seen), Shortened(members[n].key);
      var value := BoundValue(graph, members[n].value, depth, seen);
      PutSameKeys(Keys(rest), before, key, value);
      PutInOrder(Keys(rest), before, key, value);
      KeysOfLast(members);
    }
  }

  /**
   Of an object the first 64 members are left, under their shortened keys: each entry has the value of the last member with
   its key, bounded one level deeper, and the entries stand in the order in which their keys come first.
   */
  lemma ObjectKeepsItsFirstMembers<R>(graph: R -> Node<R>, r: R, depth: nat, seen: set<R>)
    requires depth < 8 && r !in seen && graph(r).Object?
    ensures var members := if |graph(r).members| <= 64 then graph(r).members else graph(r).members[..64];
            var j := BoundValue(graph, Ref(r), depth, seen);
            && j.JObject? && DistinctKeys(j.entries)
            && SameKeys(Keys(members), j.entries) && InOrder(Keys(members), j.entries)
            && forall i :: 0 <= i < |j.entries| ==> Stems(graph, members, depth + 1, seen + {r}, j.entries[i])
  {
    var members := First(graph(r).members, MAX_OBJECT_KEYS);
    MembersStem(graph, members, depth + 1, seen + {r});
    MembersDiffer(graph, members, depth + 1, seen + {r});
    KeysInOrder(graph, members, depth + 1, seen + {r});
  }
}
