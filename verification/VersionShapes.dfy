/** Which texts are versions, and how plain releases compare. */
module VersionShapes {
  import opened Texts
  import opened Binary64
  import opened Versions
  import opened VersionOrder

  /** One to six digits. */
  predicate IsPart(s: string) {
    1 <= |s| <= 6 && forall i :: 0 <= i < |s| ==> '0' <= s[i] <= '9'
  }

  predicate IsLetterOrDigit(c: char) {
    '0' <= c <= '9' || 'a' <= c <= 'z' || 'A' <= c <= 'Z'
  }

  /** One to 64 letters, digits, dots and hyphens, with a letter or digit at both ends. */
  predicate IsTag(s: string) {
    && 1 <= |s| <= 64 && IsLetterOrDigit(s[0]) && IsLetterOrDigit(s[|s| - 1])
    && forall i :: 0 <= i < |s| ==> IsLetterOrDigit(s[i]) || s[i] == '.' || s[i] == '-'
  }

  predicate IsRelease(v: string, a: string, b: string, c: string) {
    IsPart(a) && IsPart(b) && IsPart(c) && v == a + ['.'] + (b + ['.'] + c)
  }

  predicate IsPrerelease(v: string, head: string, tag: string) {
    IsTag(tag) && v == head + ['-'] + tag
  }

  // ---- putting a version together ----

  predicate IsCore(core: seq<string>) {
    |core| == 3 && forall i :: 0 <= i < 3 ==> IsPart(core[i])
  }

  lemma ThreePieces(s: string, x: string, y: string, z: string)
    requires '.' !in x && '.' !in y && '.' !in z && s == x + ['.'] + (y + ['.'] + z)
    ensures Split(s, '.') == [x, y, z]
  {
    SplitAt(x, '.', y + ['.'] + z);
    SplitAt(y, '.', z);
    NoSeparator(z, '.');
  }

  /** A version put together from its core and its tag. */
  lemma Composed(v: string, head: string, tag: string)
    requires v == head + ['-'] + tag && '-' !in head
    ensures IndexOf(v, '-') == |head| && v[..|head|] == head && v[|head| + 1..] == tag
    ensures Split(v, '-') == [head] + Split(tag, '-')
  {
    SplitAt(head, '-', tag);
    HyphenAt(v, head, tag);
  }

  lemma ComposedIsAccepted(v: string, head: string, tag: string)
    requires v == head + ['-'] + tag && '-' !in head && IsCore(Split(head, '.')) && IsTag(tag)
    ensures Accepted(v)
  {
    HyphenAt(v, head, tag);
    AcceptedFrom(v, |head|, head, tag);
  }

  lemma AcceptedFrom(v: string, hyphen: nat, head: string, tag: string)
    requires hyphen == IndexOf(v, '-') < |v| && head == v[..hyphen] && tag == v[hyphen + 1..]
    requires IsCore(Split(head, '.')) && IsTag(tag)
    ensures Accepted(v)
  {
  }

  lemma HyphenAt(v: string, head: string, tag: string)
    requires v == head + ['-'] + tag && '-' !in head
    ensures IndexOf(v, '-') == |head| < |v| && v[..|head|] == head && v[|head| + 1..] == tag
  {
    FirstIndex(v, '-', |head|);
  }

  lemma ComposedIsRead(v: string, head: string, tag: string)
    requires v == head + ['-'] + tag && '-' !in head
    ensures Read(v) == SemVer(Values(Split(head, '.')), Split(tag, '.')) && Parse(v).prerelease != []
    ensures '-' !in tag ==> Parse(v) == Parsed(Numbers(Split(head, '.')), Split(tag, '.'))
  {
    Composed(v, head, tag);
    if '-' !in tag { NoSeparator(tag, '-'); }
  }

  lemma PartsHaveNoMarks(s: string)
    requires IsPart(s)
    ensures '.' !in s && '-' !in s
  {
  }

  lemma ReleaseSplits(v: string, a: string, b: string, c: string)
    requires IsRelease(v, a, b, c)
    ensures '-' !in v && Split(v, '.') == [a, b, c] && IsCore(Split(v, '.'))
  {
    PartsHaveNoMarks(a);
    PartsHaveNoMarks(b);
    PartsHaveNoMarks(c);
    ThreePieces(v, a, b, c);
  }

  lemma CoreAlone(v: string)
    requires '-' !in v && IsCore(Split(v, '.'))
    ensures Accepted(v) && Read(v) == SemVer(Values(Split(v, '.')), []) && |Split(v, '-')| == 1
    ensures Parse(v).prerelease == []
  {
    assert IndexOf(v, '-') == |v| && v[..|v|] == v;
  }

  // ---- what is accepted ----

  lemma CoreIsRelease(head: string, parts: seq<string>)
    requires Split(head, '.') == parts && IsCore(parts)
    ensures IsRelease(head, parts[0], parts[1], parts[2])
  {
    JoinSplit(head, '.');
    assert parts[1..] == [parts[1], parts[2]] && parts[1..][1..] == [parts[2]];
    assert Join(parts[1..], '.') == parts[1] + ['.'] + parts[2];
  }

  lemma AcceptedIsShaped(v: string) returns (head: string, a: string, b: string, c: string)
    requires Accepted(v)
    ensures IsRelease(head, a, b, c) && (v == head || exists tag :: IsPrerelease(v, head, tag))
  {
    var hyphen := IndexOf(v, '-');
    head := v[..hyphen];
    var parts := Split(head, '.');
    a, b, c := parts[0], parts[1], parts[2];
    CoreIsRelease(head, parts);
    if hyphen < |v| {
      var tag := v[hyphen + 1..];
      assert v == head + ['-'] + tag;
      assert IsPrerelease(v, head, tag);
    } else {
      assert v[..|v|] == v;
    }
  }

  /** A release, or a release with a tag. */
  ghost predicate Shaped(v: string) {
    || (exists a, b, c :: IsRelease(v, a, b, c))
    || exists head, tag, a, b, c :: IsPrerelease(v, head, tag) && IsRelease(head, a, b, c)
  }

  /**
   A text is a version exactly when it is three numbers of one to six digits with dots between them, alone or with a
   hyphen and a tag behind them.
   */
  lemma AcceptedExactly(v: string)
    ensures Accepted(v) <==> Shaped(v)
  {
    if Accepted(v) {
      var head, a, b, c := AcceptedIsShaped(v);
    }
    if a, b, c :| IsRelease(v, a, b, c) {
      ReleaseSplits(v, a, b, c);
      CoreAlone(v);
    }
    if head, tag, a, b, c :| IsPrerelease(v, head, tag) && IsRelease(head, a, b, c) {
      ReleaseSplits(head, a, b, c);
      ComposedIsAccepted(v, head, tag);
    }
  }

  // ---- how releases compare ----

  function Order(m: nat, n: nat): int {
    if m < n then -1 else if m == n then 0 else 1
  }

  lemma ReleaseIsParsed(v: string, a: string, b: string, c: string)
    requires IsRelease(v, a, b, c)
    ensures Accepted(v) && Parse(v) == Parsed([Value(a), Value(b), Value(c)], [])
  {
    ReleaseSplits(v, a, b, c);
    CoreAlone(v);
    SameCoreReading(v);
    assert Values([a, b, c]) == [Value(a), Value(b), Value(c)];
  }

  lemma CoresOfThree(a: seq<nat>, b: seq<nat>)
    requires |a| == |b| == 3
    ensures CompareCores(a, b, 0) == OrderOf(a, b)
  {
    assert CompareCores(a, b, 2) == Order(a[2], b[2]);
  }

  /** By the first difference, from left to right. */
  function OrderOf(a: seq<nat>, b: seq<nat>): int
    requires |a| == |b| == 3
  {
    if a[0] != b[0] then Order(a[0], b[0]) else if a[1] != b[1] then Order(a[1], b[1]) else Order(a[2], b[2])
  }

  /** A release that is written with these numbers. */
  ghost predicate HasNumbers(v: string, x: seq<nat>) {
    |x| == 3 && exists a, b, c :: IsRelease(v, a, b, c) && x == [Value(a), Value(b), Value(c)]
  }

  lemma HasNumbersIsParsed(v: string, x: seq<nat>)
    requires HasNumbers(v, x)
    ensures Accepted(v) && Parse(v) == Parsed(x, [])
  {
    var a, b, c :| IsRelease(v, a, b, c) && x == [Value(a), Value(b), Value(c)];
    ReleaseIsParsed(v, a, b, c);
  }

  /** Plain releases compare by their numbers, from left to right. */
  lemma ReleasesCompareByNumber(v: string, x: seq<nat>, w: string, y: seq<nat>)
    requires HasNumbers(v, x) && HasNumbers(w, y)
    ensures Accepted(v) && Accepted(w) && Compare(Parse(v), Parse(w)) == OrderOf(x, y)
  {
    HasNumbersIsParsed(v, x);
    HasNumbersIsParsed(w, y);
    CoresDecide(Parse(v), Parse(w));
  }

  lemma CoresDecide(p: Parsed, q: Parsed)
    requires |p.core| == |q.core| == 3 && p.prerelease == q.prerelease == []
    ensures Compare(p, q) == OrderOf(p.core, q.core)
  {
    CoresOfThree(p.core, q.core);
  }

  /** A pre-release comes before its release. */
  lemma PrereleaseComesFirst(v: string, w: string, tag: string, a: string, b: string, c: string)
    requires IsRelease(v, a, b, c) && IsPrerelease(w, v, tag)
    ensures Accepted(v) && Accepted(w) && Compare(Parse(w), Parse(v)) == -1 && Compare(Parse(v), Parse(w)) == 1
  {
    ReleaseIsParsed(v, a, b, c);
    ReleaseSplits(v, a, b, c);
    ComposedIsAccepted(w, v, tag);
    ComposedIsRead(w, v, tag);
    SameCoreReading(w);
    SameCoreReading(v);
    assert Read(v).core == Read(w).core by { CoreAlone(v); }
    CoresOfThree(Parse(v).core, Parse(w).core);
    CoresOfThree(Parse(w).core, Parse(v).core);
  }
}
