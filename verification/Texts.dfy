/** Splitting and joining of text, shared by the version and the Markdown modules. */
module Texts {
  function IndexOf(s: string, c: char): (i: nat)
    ensures i <= |s| && (i < |s| ==> s[i] == c)
    ensures forall j :: 0 <= j < i ==> s[j] != c
  {
    if s == "" || s[0] == c then 0 else 1 + IndexOf(s[1..], c)
  }

  /** The pieces between the occurrences of a separator. */
  function Split(s: string, c: char): (r: seq<string>)
    ensures r != []
    ensures forall i :: 0 <= i < |r| ==> c !in r[i]
    decreases |s|
  {
    var i := IndexOf(s, c);
    if i == |s| then [s] else [s[..i]] + Split(s[i + 1..], c)
  }

  function Join(parts: seq<string>, c: char): string
    requires parts != []
  {
    if |parts| == 1 then parts[0] else parts[0] + [c] + Join(parts[1..], c)
  }

  lemma {:induction false} JoinSplit(s: string, c: char)
    ensures Join(Split(s, c), c) == s
    decreases |s|
  {
    var i := IndexOf(s, c);
    if i < |s| {
      JoinSplit(s[i + 1..], c);
      JoinCons(s[..i], Split(s[i + 1..], c), c);
    }
  }

  lemma JoinCons(head: string, rest: seq<string>, c: char)
    requires rest != []
    ensures Join([head] + rest, c) == head + [c] + Join(rest, c)
  {
    assert ([head] + rest)[1..] == rest;
  }

  /** Splitting at a known first separator. */
  lemma SplitAt(head: string, c: char, tail: string)
    requires c !in head
    ensures Split(head + [c] + tail, c) == [head] + Split(tail, c)
  {
    var whole := head + [c] + tail;
    FirstIndex(whole, c, |head|);
    assert whole[..|head|] == head && whole[|head| + 1..] == tail;
  }

  lemma NoSeparator(s: string, c: char)
    requires c !in s
    ensures Split(s, c) == [s]
  {
    assert IndexOf(s, c) == |s|;
  }

  lemma Regroup<T>(a: seq<T>, b: seq<T>, c: seq<T>)
    ensures a + b + c == a + (b + c)
  {
  }

  lemma {:induction false} SplitAppend(s: string, c: char, t: string)
    ensures Split(s + [c] + t, c) == Split(s, c) + Split(t, c)
    decreases |s|
  {
    var i := IndexOf(s, c);
    if i == |s| {
      SplitAt(s, c, t);
    } else {
      var head, tail := s[..i], s[i + 1..];
      var rest := tail + [c] + t;
      assert s == head + [c] + tail && s + [c] + t == head + [c] + rest;
      SplitAppend(tail, c, t);
      SplitAt(head, c, rest);
      SplitAt(head, c, tail);
      Regroup([head], Split(tail, c), Split(t, c));
    }
  }

  lemma FirstIndex(s: string, c: char, i: nat)
    requires i < |s| && s[i] == c && forall j :: 0 <= j < i ==> s[j] != c
    ensures IndexOf(s, c) == i
  {
  }
}
