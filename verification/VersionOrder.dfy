/** What compareVersions promises, and where it parts from Semantic Versioning 2.0.0. */
module VersionOrder {
  import opened Wrappers
  import opened Texts
  import opened Versions
  import opened Binary64

  // ---- section 11 of Semantic Versioning 2.0.0, written down on its own ----

  /** Lexical order in ASCII: the first difference decides, a proper prefix comes first. */
  ghost predicate AsciiBefore(s: string, t: string) {
    exists k :: 0 <= k <= |s| && k < |t| && s[..k] == t[..k] && (k == |s| || s[k] < t[k])
  }

  ghost predicate IdentifierBefore(x: string, y: string) {
    if IsNumeric(x) && IsNumeric(y) then Value(x) < Value(y)
    else if IsNumeric(x) || IsNumeric(y) then IsNumeric(x)
    else AsciiBefore(x, y)
  }

  /** The same text, or numbers of the same value. */
  predicate SameIdentifier(x: string, y: string) {
    x == y || (IsNumeric(x) && IsNumeric(y) && Value(x) == Value(y))
  }

  ghost predicate SameUpTo(p: seq<string>, q: seq<string>, k: nat) {
    k <= |p| && k <= |q| && forall i :: 0 <= i < k ==> SameIdentifier(p[i], q[i])
  }

  /** Identifiers are compared from left to right; with all of them equal the shorter list comes first. */
  ghost predicate PrereleaseBefore(p: seq<string>, q: seq<string>) {
    exists k: nat :: k < |q| && SameUpTo(p, q, k) && (k == |p| || IdentifierBefore(p[k], q[k]))
  }

  ghost predicate CoreBefore(a: seq<nat>, b: seq<nat>) {
    exists k :: 0 <= k < 3 && Core(a, k) < Core(b, k) && forall j :: 0 <= j < k ==> Core(a, j) == Core(b, j)
  }

  ghost predicate SameCore(a: seq<nat>, b: seq<nat>) {
    forall k :: 0 <= k < 3 ==> Core(a, k) == Core(b, k)
  }

  datatype SemVer = SemVer(core: seq<nat>, prerelease: seq<string>)

  ghost predicate Precedes(a: SemVer, b: SemVer) {
    || CoreBefore(a.core, b.core)
    || (SameCore(a.core, b.core) && a.prerelease != [] &&
        (b.prerelease == [] || PrereleaseBefore(a.prerelease, b.prerelease)))
  }

  function Values(parts: seq<string>): (r: seq<nat>)
    ensures |r| == |parts|
    ensures forall i :: 0 <= i < |r| ==> r[i] == Value(parts[i])
  {
    if parts == [] then [] else [Value(parts[0])] + Values(parts[1..])
  }

  /** A version as Semantic Versioning reads it: everything after the first hyphen is the pre-release. */
  function Read(v: string): SemVer {
    var hyphen := IndexOf(v, '-');
    SemVer(Values(Split(v[..hyphen], '.')), if hyphen == |v| then [] else Split(v[hyphen + 1..], '.'))
  }

  /** A number as Semantic Versioning writes it, small enough to be held exactly. */
  predicate Plain(s: string) {
    IsNumeric(s) ==> (|s| > 1 ==> s[0] != '0') && Value(s) <= EXACT
  }

  /** The identifiers compareVersions looks at are plain. */
  ghost predicate PlainPrerelease(v: string) {
    forall i :: 0 <= i < |Parse(v).prerelease| ==> Plain(Parse(v).prerelease[i])
  }

  /** Accepted, at most one hyphen, and every number plain. */
  ghost predicate Canonical(v: string) {
    && Accepted(v) && |Split(v, '-')| <= 2 && PlainPrerelease(v)
    && forall i :: 0 <= i < |Split(Split(v, '-')[0], '.')| ==> Plain(Split(Split(v, '-')[0], '.')[i])
  }

  // ---- strings ----

  lemma {:induction false} LessIsAsciiBefore(s: string, t: string)
    ensures Less(s, t) <==> AsciiBefore(s, t)
  {
    if t == "" || s == "" || s[0] != t[0] {
      if t != "" && (s == "" || s[0] < t[0]) { assert s[..0] == t[..0]; }
      forall k | 0 <= k <= |s| && k < |t| && s[..k] == t[..k] && (k == |s| || s[k] < t[k]) ensures Less(s, t) {
        if k > 0 { assert s[..k][0] == t[..k][0]; }
      }
    } else {
      var s', t' := s[1..], t[1..];
      LessIsAsciiBefore(s', t');
      if AsciiBefore(s', t') {
        var k :| 0 <= k <= |s'| && k < |t'| && s'[..k] == t'[..k] && (k == |s'| || s'[k] < t'[k]);
        assert s[..k + 1] == [s[0]] + s'[..k] && t[..k + 1] == [t[0]] + t'[..k];
      }
      if AsciiBefore(s, t) {
        var k :| 0 <= k <= |s| && k < |t| && s[..k] == t[..k] && (k == |s| || s[k] < t[k]);
        assert s'[..k - 1] == s[..k][1..] && t'[..k - 1] == t[..k][1..];
      }
    }
  }

  lemma LessTotal(s: string, t: string)
    requires s != t
    ensures Less(s, t) <==> !Less(t, s)
  {
    if s != "" && t != "" && s[0] == t[0] {
      assert s == [s[0]] + s[1..] && t == [t[0]] + t[1..];
      LessTotal(s[1..], t[1..]);
    }
  }

  lemma LessTransitive(s: string, t: string, u: string)
    requires Less(s, t) && Less(t, u)
    ensures Less(s, u)
  {
    if s != "" && s[0] == t[0] && t[0] == u[0] { LessTransitive(s[1..], t[1..], u[1..]); }
  }

  lemma {:induction false} LeadingDigit(s: string)
    requires IsNumeric(s) && s[0] != '0'
    ensures Value(s) > 0
  {
    if |s| > 1 {
      LeadingDigit(s[..|s| - 1]);
    }
  }

  /** Plain numbers of equal value are equal texts. */
  lemma {:induction false} ValueInjective(s: string, t: string)
    requires IsNumeric(s) && IsNumeric(t) && Plain(s) && Plain(t) && Value(s) == Value(t)
    ensures s == t
    decreases |s|
  {
    var a, b := s[..|s| - 1], t[..|t| - 1];
    assert Value(a) == Value(b) && s[|s| - 1] == t[|t| - 1];
    if a != "" { LeadingDigit(a); }
    if b != "" { LeadingDigit(b); }
    if a != "" && b != "" {
      ValueInjective(a, b);
    }
    assert s == a + [s[|s| - 1]] && t == b + [t[|t| - 1]];
  }

  // ---- identifiers and pre-releases ----

  ghost predicate AllPlain(p: seq<string>) {
    forall i :: 0 <= i < |p| ==> Plain(p[i])
  }

  /** Two different identifiers compare as section 11 asks, unless they are numbers that parseInt makes equal. */
  lemma IdentifiersAgree(x: string, y: string)
    requires x != y && !Confused(x, y)
    ensures CompareIdentifiers(x, y) == if IdentifierBefore(x, y) then -1 else 1
    ensures IdentifierBefore(x, y) <==> !IdentifierBefore(y, x)
    ensures !SameIdentifier(x, y)
  {
    if IsNumeric(x) && IsNumeric(y) {
      if Value(x) <= Value(y) { NearestKeepsOrder(Value(x), Value(y)); } else { NearestKeepsOrder(Value(y), Value(x)); }
    } else {
      LessIsAsciiBefore(x, y);
      LessIsAsciiBefore(y, x);
      LessTotal(x, y);
    }
  }

  lemma PlainIsNotConfused(x: string, y: string)
    requires Plain(x) && Plain(y) && x != y
    ensures !Confused(x, y)
  {
    if IsNumeric(x) && IsNumeric(y) {
      SmallNumbersAreExact(Value(x));
      SmallNumbersAreExact(Value(y));
      if Value(x) == Value(y) { ValueInjective(x, y); }
    }
  }

  lemma IdentifiersTransitive(x: string, y: string, z: string)
    requires Plain(x) && Plain(y) && Plain(z) && x != y && y != z
    requires CompareIdentifiers(x, y) == -1 && CompareIdentifiers(y, z) == -1
    ensures x != z && CompareIdentifiers(x, z) == -1
  {
    PlainIsNotConfused(x, y);
    PlainIsNotConfused(y, z);
    IdentifiersAgree(x, y);
    IdentifiersAgree(y, z);
    if IsNumeric(x) && IsNumeric(y) && IsNumeric(z) {
      SmallNumbersAreExact(Value(x));
      SmallNumbersAreExact(Value(z));
    } else if !IsNumeric(x) && !IsNumeric(y) && !IsNumeric(z) {
      LessTransitive(x, y, z);
      if x == z { LessTotal(x, y); }
    }
  }

  lemma PrereleaseTails(p: seq<string>, q: seq<string>)
    requires p != [] && q != [] && SameIdentifier(p[0], q[0])
    ensures PrereleaseBefore(p, q) <==> PrereleaseBefore(p[1..], q[1..])
  {
    var p', q' := p[1..], q[1..];
    if PrereleaseBefore(p', q') {
      var k: nat :| k < |q'| && SameUpTo(p', q', k) && (k == |p'| || IdentifierBefore(p'[k], q'[k]));
      forall i | 0 <= i < k + 1 ensures SameIdentifier(p[i], q[i]) {
        if i > 0 { assert SameIdentifier(p'[i - 1], q'[i - 1]); }
      }
      assert SameUpTo(p, q, k + 1);
    }
    if PrereleaseBefore(p, q) {
      var k: nat :| k < |q| && SameUpTo(p, q, k) && (k == |p| || IdentifierBefore(p[k], q[k]));
      SameIsNotBefore(p[0], q[0]);
      assert SameUpTo(p', q', k - 1);
    }
  }

  lemma SameIsNotBefore(x: string, y: string)
    requires SameIdentifier(x, y)
    ensures !IdentifierBefore(x, y)
  {
    NotBeforeItself(x);
  }

  lemma PrereleaseHeads(p: seq<string>, q: seq<string>)
    requires p != [] && q != [] && !SameIdentifier(p[0], q[0])
    ensures PrereleaseBefore(p, q) <==> IdentifierBefore(p[0], q[0])
  {
    assert SameUpTo(p, q, 0);
  }

  lemma PrereleaseEnds(p: seq<string>)
    ensures !PrereleaseBefore(p, []) && (p != [] ==> PrereleaseBefore([], p))
  {
    assert SameUpTo([], p, 0);
  }

  /** Numbers that are one to parseInt. */
  predicate Confused(x: string, y: string) {
    IsNumeric(x) && IsNumeric(y) && ParseInt(x) == ParseInt(y)
  }

  /**
   The first two identifiers that differ are numbers that parseInt makes equal, while their values differ or what
   follows them decides.
   */
  ghost predicate Blurred(p: seq<string>, q: seq<string>) {
    && p != [] && q != []
    && if p[0] == q[0] then Blurred(p[1..], q[1..])
       else
         && Confused(p[0], q[0])
         && (Value(p[0]) != Value(q[0]) || PrereleaseBefore(p[1..], q[1..]) || PrereleaseBefore(q[1..], p[1..]))
  }

  ghost predicate PrereleasesAgree(p: seq<string>, q: seq<string>) {
    && (ComparePrereleases(p, q) == -1 <==> PrereleaseBefore(p, q))
    && (ComparePrereleases(p, q) == 1 <==> PrereleaseBefore(q, p))
  }

  lemma ConfusedHeads(p: seq<string>, q: seq<string>)
    requires p != [] && q != [] && p[0] != q[0] && Confused(p[0], q[0])
    ensures PrereleasesAgree(p, q) <==> !Blurred(p, q)
  {
    assert ComparePrereleases(p, q) == 0;
    if Value(p[0]) == Value(q[0]) {
      PrereleaseTails(p, q);
      PrereleaseTails(q, p);
    } else {
      PrereleaseHeads(p, q);
      PrereleaseHeads(q, p);
    }
  }

  /** The comparison of pre-releases parts from section 11 exactly on the blurred ones. */
  lemma {:induction false} PrereleasesAgreeExactly(p: seq<string>, q: seq<string>)
    ensures PrereleasesAgree(p, q) <==> !Blurred(p, q)
  {
    if p == [] || q == [] {
      PrereleaseEnds(p);
      PrereleaseEnds(q);
    } else if p[0] == q[0] {
      PrereleasesAgreeExactly(p[1..], q[1..]);
      PrereleaseTails(p, q);
      PrereleaseTails(q, p);
    } else if Confused(p[0], q[0]) {
      ConfusedHeads(p, q);
    } else {
      IdentifiersAgree(p[0], q[0]);
      PrereleaseHeads(p, q);
      PrereleaseHeads(q, p);
    }
  }

  lemma {:induction false} PlainIsNotBlurred(p: seq<string>, q: seq<string>)
    requires AllPlain(p) && AllPlain(q)
    ensures !Blurred(p, q) && (ComparePrereleases(p, q) == 0 <==> p == q)
  {
    if p != [] && q != [] {
      if p[0] == q[0] {
        PlainIsNotBlurred(p[1..], q[1..]);
        assert p == [p[0]] + p[1..] && q == [q[0]] + q[1..];
      } else {
        PlainIsNotConfused(p[0], q[0]);
        IdentifiersAgree(p[0], q[0]);
      }
    }
  }

  lemma NotBeforeItself(x: string)
    ensures !IdentifierBefore(x, x)
  {
    LessIsAsciiBefore(x, x);
    NotLessThanItself(x);
  }

  lemma NotLessThanItself(s: string)
    ensures !Less(s, s)
  {
  }

  lemma {:induction false} PrereleasesAntisymmetric(p: seq<string>, q: seq<string>)
    ensures ComparePrereleases(q, p) == -ComparePrereleases(p, q)
  {
    if p != [] && q != [] {
      if p[0] == q[0] { PrereleasesAntisymmetric(p[1..], q[1..]); }
      else { LessTotal(p[0], q[0]); }
    }
  }

  lemma {:induction false} PrereleasesTransitive(p: seq<string>, q: seq<string>, r: seq<string>)
    requires AllPlain(p) && AllPlain(q) && AllPlain(r)
    requires ComparePrereleases(p, q) <= 0 && ComparePrereleases(q, r) <= 0
    ensures ComparePrereleases(p, r) <= 0
  {
    if p != [] && q != [] && r != [] {
      if p[0] == q[0] && q[0] == r[0] {
        PrereleasesTransitive(p[1..], q[1..], r[1..]);
      } else if p[0] != q[0] && q[0] != r[0] {
        PlainIsNotConfused(p[0], q[0]);
        PlainIsNotConfused(q[0], r[0]);
        IdentifiersAgree(p[0], q[0]);
        IdentifiersAgree(q[0], r[0]);
        IdentifiersTransitive(p[0], q[0], r[0]);
      }
    }
  }

  // ---- whole versions ----

  lemma CoresAgree(a: seq<nat>, b: seq<nat>)
    ensures CompareCores(a, b, 0) == -1 <==> CoreBefore(a, b)
    ensures CompareCores(a, b, 0) == 0 <==> SameCore(a, b)
    ensures CompareCores(b, a, 0) == -CompareCores(a, b, 0)
  {
    assert CompareCores(a, b, 3) == 0;
    assert CompareCores(b, a, 3) == 0;
    assert CompareCores(a, b, 2) == Sign(Core(a, 2) - Core(b, 2)) && CompareCores(b, a, 2) == Sign(Core(b, 2) - Core(a, 2));
  }

  /**
   compareVersions is reflexive, antisymmetric, total and transitive on accepted versions whose
   pre-release numbers are plain; the first three need no such condition.
   */
  lemma ComparisonIsATotalPreorder(u: string, v: string, w: string)
    ensures Compare(Parse(u), Parse(u)) == 0
    ensures Compare(Parse(v), Parse(u)) == -Compare(Parse(u), Parse(v))
    ensures PlainPrerelease(u) && PlainPrerelease(v) && PlainPrerelease(w)
            && Compare(Parse(u), Parse(v)) <= 0 && Compare(Parse(v), Parse(w)) <= 0 ==>
              Compare(Parse(u), Parse(w)) <= 0
  {
    var a, b, c := Parse(u), Parse(v), Parse(w);
    PrereleasesAntisymmetric(a.prerelease, a.prerelease);
    PrereleasesAntisymmetric(a.prerelease, b.prerelease);
    CoresAgree(a.core, a.core);
    CoresAgree(a.core, b.core);
    CoresAgree(b.core, c.core);
    CoresAgree(a.core, c.core);
    if PlainPrerelease(u) && PlainPrerelease(v) && PlainPrerelease(w)
       && ComparePrereleases(a.prerelease, b.prerelease) <= 0 && ComparePrereleases(b.prerelease, c.prerelease) <= 0 {
      PrereleasesTransitive(a.prerelease, b.prerelease, c.prerelease);
    }
  }

  lemma {:induction false} ShortNumbers(s: string)
    requires |s| <= 6
    ensures Value(s) < [1, 10, 100, 1000, 10000, 100000, 1000000][|s|]
  {
    if s != "" { ShortNumbers(s[..|s| - 1]); }
  }

  lemma SameCores(l: string, r: string)
    requires Canonical(l) && Canonical(r) && Parse(l) == Parse(r)
    ensures Split(l, '-')[0] == Split(r, '-')[0]
  {
    var a, b := Split(l, '-')[0], Split(r, '-')[0];
    var p, q := Split(a, '.'), Split(b, '.');
    SameReading(l);
    SameReading(r);
    CorePieces(l);
    CorePieces(r);
    forall i | 0 <= i < 3 ensures p[i] == q[i] {
      assert Value(p[i]) == Read(l).core[i] && Value(q[i]) == Read(r).core[i];
      ValueInjective(p[i], q[i]);
    }
    assert p == q;
    JoinSplit(a, '.');
    JoinSplit(b, '.');
  }

  lemma SameTails(l: string, r: string)
    requires Canonical(l) && Canonical(r) && Parse(l) == Parse(r)
    ensures |Split(l, '-')| == |Split(r, '-')| && (|Split(l, '-')| == 2 ==> Split(l, '-')[1] == Split(r, '-')[1])
  {
    var a, b := Split(l, '-'), Split(r, '-');
    if |a| == 2 && |b| == 2 {
      JoinSplit(a[1], '.');
      JoinSplit(b[1], '.');
    }
  }

  /** Canonical versions that parse alike are equal. */
  lemma CanonicalInjective(l: string, r: string)
    requires Canonical(l) && Canonical(r) && Parse(l) == Parse(r)
    ensures l == r
  {
    SameCores(l, r);
    SameTails(l, r);
    assert Split(l, '-') == Split(r, '-');
    JoinSplit(l, '-');
    JoinSplit(r, '-');
  }

  lemma CorePieces(v: string)
    requires Accepted(v)
    ensures var parts := Split(Split(v, '-')[0], '.');
            && |parts| == 3 && Read(v).core == Values(parts)
            && forall i :: 0 <= i < 3 ==> IsNumeric(parts[i]) && |parts[i]| <= 6
  {
    var hyphen := IndexOf(v, '-');
    assert Split(v, '-')[0] == v[..hyphen] by { if hyphen == |v| { assert v[..hyphen] == v; } }
  }

  ghost predicate Agrees(a: Parsed, b: Parsed) {
    && (Compare(a, b) == -1 <==> Precedes(SemVer(a.core, a.prerelease), SemVer(b.core, b.prerelease)))
    && (Compare(a, b) == 1 <==> Precedes(SemVer(b.core, b.prerelease), SemVer(a.core, a.prerelease)))
  }

  lemma ParsedAgreeExactly(a: Parsed, b: Parsed)
    ensures Agrees(a, b) <==> !(SameCore(a.core, b.core) && Blurred(a.prerelease, b.prerelease))
  {
    CoresAgree(a.core, b.core);
    CoresAgree(b.core, a.core);
    PrereleasesAgreeExactly(a.prerelease, b.prerelease);
  }

  /** The numbers of the core are short enough to be held exactly. */
  lemma SameCoreReading(v: string)
    requires Accepted(v)
    ensures Read(v).core == Parse(v).core
  {
    var hyphen := IndexOf(v, '-');
    assert Split(v, '-')[0] == v[..hyphen] by { if hyphen == |v| { assert v[..hyphen] == v; } }
    var parts := Split(v[..hyphen], '.');
    forall i | 0 <= i < |parts| ensures ParseInt(parts[i]) == Value(parts[i]) {
      ShortNumbers(parts[i]);
      SmallNumbersAreExact(Value(parts[i]));
    }
    assert Numbers(parts) == Values(parts);
  }

  /** Accepted and with at most one hyphen: the two readings are the same. */
  lemma SameReading(v: string)
    requires Accepted(v) && |Split(v, '-')| <= 2
    ensures Read(v).core == Parse(v).core && Read(v).prerelease == Parse(v).prerelease
  {
    SameCoreReading(v);
  }

  /**
   The exact condition: on accepted versions with at most one hyphen, compareVersions is the precedence of section 11
   of Semantic Versioning 2.0.0 if and only if it is not the case that the cores are equal and the first two
   pre-release identifiers that differ are numbers which parseInt makes equal although they or what follows decide.
   */
  lemma AgreesExactlyUnlessBlurred(l: string, r: string)
    requires Accepted(l) && Accepted(r) && |Split(l, '-')| <= 2 && |Split(r, '-')| <= 2
    ensures (Compare(Parse(l), Parse(r)) == -1 <==> Precedes(Read(l), Read(r)))
            && (Compare(Parse(l), Parse(r)) == 1 <==> Precedes(Read(r), Read(l)))
            <==> !(SameCore(Read(l).core, Read(r).core) && Blurred(Read(l).prerelease, Read(r).prerelease))
  {
    SameReading(l);
    SameReading(r);
    ParsedAgreeExactly(Parse(l), Parse(r));
  }

  /**
   On canonical versions compareVersions is the precedence of section 11 of Semantic Versioning 2.0.0,
   and it is zero only for equal versions.
   */
  lemma AgreesWithSemanticVersioning(l: string, r: string)
    requires Canonical(l) && Canonical(r)
    ensures Compare(Parse(l), Parse(r)) == -1 <==> Precedes(Read(l), Read(r))
    ensures Compare(Parse(l), Parse(r)) == 1 <==> Precedes(Read(r), Read(l))
    ensures Compare(Parse(l), Parse(r)) == 0 <==> l == r
  {
    PlainIsNotBlurred(Parse(l).prerelease, Parse(r).prerelease);
    SameReading(l);
    SameReading(r);
    ParsedAgreeExactly(Parse(l), Parse(r));
    CoresAgree(Parse(l).core, Parse(r).core);
    ComparisonIsATotalPreorder(l, r, r);
    if Compare(Parse(l), Parse(r)) == 0 {
      EqualCanonical(l, r);
    }
  }

  lemma EqualCanonical(l: string, r: string)
    requires Canonical(l) && Canonical(r) && Parse(l).prerelease == Parse(r).prerelease
    requires SameCore(Parse(l).core, Parse(r).core)
    ensures l == r
  {
    var a, b := Parse(l), Parse(r);
    SameReading(l);
    SameReading(r);
    CorePieces(l);
    CorePieces(r);
    assert forall k :: 0 <= k < 3 ==> Core(a.core, k) == a.core[k] && Core(b.core, k) == b.core[k];
    assert a.core == b.core;
    CanonicalInjective(l, r);
  }

  // ---- where the conditions are needed ----

  /** Whatever follows a second hyphen is ignored, so such versions are told apart only by Semantic Versioning. */
  lemma TextAfterASecondHyphenIsIgnored(v: string, more: string)
    requires '-' in v
    ensures Parse(v + "-" + more) == Parse(v)
    ensures Compare(Parse(v + "-" + more), Parse(v)) == 0
  {
    SplitAppend(v, '-', more);
    ComparisonIsATotalPreorder(v, v, v);
    assert v + "-" + more == v + ['-'] + more;
  }
}
