/** The bounding of values that leave a page (apps/desktop/src/browser-automation.ts). */
module Bounding {
  import opened Wrappers
  import opened Utf16
  import opened Utf8

  const MAX_STRING_BYTES := 16 * 1024
  const MAX_ARRAY_ITEMS := 256
  const MAX_OBJECT_KEYS := 64
  const MAX_DEPTH := 8

  // ---- strings ----

  /** The longest prefix that fits. */
  function BoundText(s: Text, max: nat): Text {
    if ByteLength(s) <= max then s else BoundText(s[..|s| - 1], max)
  }

  lemma {:induction false} BoundTextIsLongest(s: Text, max: nat)
    ensures BoundText(s, max) <= s && ByteLength(BoundText(s, max)) <= max
    ensures forall n :: |BoundText(s, max)| < n <= |s| ==> ByteLength(s[..n]) > max
  {
    if ByteLength(s) > max {
      var shorter := s[..|s| - 1];
      BoundTextIsLongest(shorter, max);
      assert forall n :: 0 <= n < |s| ==> shorter[..n] == s[..n];
      assert s[..|s|] == s;
    }
  }

  /** boundString, with its loop. */
  method BoundString(value: Text, max: nat) returns (r: Text)
    ensures r <= value && ByteLength(r) <= max
    ensures forall n :: |r| < n <= |value| ==> ByteLength(value[..n]) > max
    ensures r == BoundText(value, max)
  {
    if ByteLength(value) <= max { return value; }
    var end := |value|;
    while end > 0 && ByteLength(value[..end]) > max
      invariant 0 <= end <= |value|
      invariant forall n :: end < n <= |value| ==> ByteLength(value[..n]) > max
    {
      end := end - 1;
    }
    r := value[..end];
    BoundTextIsLongest(value, max);
    LongestIsUnique(value, max, r, BoundText(value, max));
  }

  lemma LongestIsUnique(s: Text, max: nat, a: Text, b: Text)
    requires a <= s && ByteLength(a) <= max && forall n :: |a| < n <= |s| ==> ByteLength(s[..n]) > max
    requires b <= s && ByteLength(b) <= max && forall n :: |b| < n <= |s| ==> ByteLength(s[..n]) > max
    ensures a == b
  {
    assert a == s[..|a|] && b == s[..|b|];
  }

  /** A prefix fits exactly when it is a prefix of the result. */
  lemma PrefixesThatFit(s: Text, max: nat, n: nat)
    requires n <= |s|
    ensures ByteLength(s[..n]) <= max <==> n <= |BoundText(s, max)|
  {
    var r := BoundText(s, max);
    BoundTextIsLongest(s, max);
    if n <= |r| {
      assert s[..n] == r[..n];
      PrefixIsNoLonger(r, n);
    }
  }

  // ---- values ----

  datatype Json =
    | JNull
    | JBool(b: bool)
    | JNumber(n: int)
    | JText(text: Text)
    | JArray(items: seq<Json>)
    | JObject(entries: seq<Entry>)

  datatype Entry = Entry(key: Text, value: Json)

  /** A value of the page; arrays and objects are references into a graph that may have cycles. */
  datatype Value<R> =
    | Null
    | Bool(b: bool)
    | Number(n: int)
    | NotFinite(which: Special)
    | Str(text: Text)
    /** A bigint, or what String makes of anything else that is no object. */
    | Printed(text: Text)
    | Ref(r: R)

  datatype Special = NaN | Infinity | NegativeInfinity

  datatype Node<R> = Array(items: seq<Value<R>>) | Object(members: seq<Member<R>>)

  datatype Member<R> = Member(key: Text, value: Value<R>)

  function Ascii(s: string): Text
    requires forall i :: 0 <= i < |s| ==> s[i] as int < 128
  {
    seq(|s|, i requires 0 <= i < |s| => s[i] as int)
  }

  function NameOf(which: Special): Text {
    match which
    case NaN => Ascii("NaN")
    case Infinity => Ascii("Infinity")
    case NegativeInfinity => Ascii("-Infinity")
  }

  const REDACTED: Text := Ascii("[redacted]")

  /** Assigning to this key sets the prototype and leaves no entry. */
  const PROTO: Text := Ascii("__proto__")

  function IndexOf(entries: seq<Entry>, key: Text): (i: nat)
    ensures i <= |entries| && (i < |entries| ==> entries[i].key == key)
    ensures forall j :: 0 <= j < i ==> entries[j].key != key
  {
    if entries == [] || entries[0].key == key then 0 else 1 + IndexOf(entries[1..], key)
  }

  /** An assignment to a property: the entry that is there is replaced, otherwise one is added. */
  function Put(entries: seq<Entry>, key: Text, value: Json): seq<Entry> {
    if key == PROTO then entries else
    var i := IndexOf(entries, key);
    if i < |entries| then entries[i := Entry(key, value)] else entries + [Entry(key, value)]
  }

  function First<T>(s: seq<T>, n: nat): seq<T> {
    if |s| <= n then s else s[..n]
  }

  function BoundValue<R>(graph: R -> Node<R>, value: Value<R>, depth: nat, seen: set<R>): Json
    decreases MAX_DEPTH - depth, 0, 0
  {
    match value
    case Null => JNull
    case Bool(b) => JBool(b)
    case Number(n) => JNumber(n)
    case NotFinite(which) => JText(NameOf(which))
    case Str(text) => JText(BoundText(text, MAX_STRING_BYTES))
    case Printed(text) => JText(BoundText(text, MAX_STRING_BYTES))
    case Ref(r) =>
      if depth >= MAX_DEPTH || r in seen then JText(REDACTED)
      else
        match graph(r)
        case Array(items) => JArray(BoundItems(graph, First(items, MAX_ARRAY_ITEMS), depth + 1, seen + {r}))
        case Object(members) => JObject(BoundMembers(graph, First(members, MAX_OBJECT_KEYS), depth + 1, seen + {r}))
  }

  function BoundItems<R>(graph: R -> Node<R>, items: seq<Value<R>>, depth: nat, seen: set<R>): seq<Json>
    decreases MAX_DEPTH - depth, 1, |items|
  {
    if items == [] then []
    else
      var n := |items| - 1;
      BoundItems(graph, items[..n], depth, seen) + [BoundValue(graph, items[n], depth, seen)]
  }

  function BoundMembers<R>(graph: R -> Node<R>, members: seq<Member<R>>, depth: nat, seen: set<R>): seq<Entry>
    decreases MAX_DEPTH - depth, 1, |members|
  {
    if members == [] then []
    else
      var n := |members| - 1;
      Put(BoundMembers(graph, members[..n], depth, seen), BoundText(members[n].key, MAX_STRING_BYTES),
          BoundValue(graph, members[n].value, depth, seen))
  }
}
