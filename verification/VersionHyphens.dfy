/** Versions with any number of hyphens: compareVersions drops what follows the second one. */
module VersionHyphens {
  import opened Texts
  import opened Versions
  import opened VersionOrder

  predicate Hyphened(x: string) {
    '-' in x
  }

  function Cut(x: string): string {
    x[..IndexOf(x, '-')]
  }

  /** What compareVersions sees of a pre-release: the first identifier with a hyphen is cut, and the rest is lost. */
  function Seen(p: seq<string>): seq<string> {
    if p == [] then [] else if Hyphened(p[0]) then [Cut(p[0])] else [p[0]] + Seen(p[1..])
  }

  // ---- what is parsed is what is seen ----

  lemma IndexBehind(s: string, c: char, k: nat)
    requires k <= IndexOf(s, c)
    ensures IndexOf(s[k..], c) == IndexOf(s, c) - k
    decreases k
  {
    if k > 0 {
      IndexBehind(s[1..], c, k - 1);
      assert s[1..][k - 1..] == s[k..];
    } else {
      assert s[0..] == s;
    }
  }

  lemma HyphenFirst(s: string)
    requires IndexOf(s, '-') < IndexOf(s, '.')
    ensures Split(s[..IndexOf(s, '-')], '.') == Seen(Split(s, '.'))
  {
    var i, d := IndexOf(s, '-'), IndexOf(s, '.');
    var head := Split(s, '.')[0];
    NoSeparator(s[..i], '.');
    assert head == s[..d] by { if d == |s| { assert s[..d] == s; } }
    assert head[i] == '-';
    FirstIndex(head, '-', i);
    assert head[..i] == s[..i];
  }

  lemma {:induction false} SplitSeen(s: string)
    ensures Split(s[..IndexOf(s, '-')], '.') == Seen(Split(s, '.'))
    decreases |s|
  {
    var i, d := IndexOf(s, '-'), IndexOf(s, '.');
    if i < d {
      HyphenFirst(s);
    } else if d == |s| {
      assert s[..i] == s;
    } else {
      SplitSeen(s[d + 1..]);
      IndexBehind(s, '-', d + 1);
      SeenBehindDot(s, d, i);
    }
  }

  lemma SeenBehindDot(s: string, d: nat, i: nat)
    requires d < i <= |s| && s[d] == '.' && '.' !in s[..d] && '-' !in s[..d]
    requires var tail := s[d + 1..]; Split(tail[..i - d - 1], '.') == Seen(Split(tail, '.'))
    ensures Split(s[..i], '.') == Seen(Split(s, '.'))
  {
    CutBehindDot(s, d, i);
    DotFirst(s[..d], s[d + 1..], s[d + 1..][..i - d - 1]);
  }

  lemma SeenBehind(x: string, p: seq<string>)
    requires !Hyphened(x)
    ensures Seen([x] + p) == [x] + Seen(p)
  {
    assert ([x] + p)[1..] == p;
  }

  lemma CutBehindDot(s: string, d: nat, i: nat)
    requires d < i <= |s| && s[d] == '.'
    ensures s[..i] == s[..d] + ['.'] + s[d + 1..][..i - d - 1] && s == s[..d] + ['.'] + s[d + 1..]
  {
  }

  lemma DotFirst(head: string, tail: string, cut: string)
    requires '.' !in head && !Hyphened(head) && Split(cut, '.') == Seen(Split(tail, '.'))
    ensures Split(head + ['.'] + cut, '.') == Seen(Split(head + ['.'] + tail, '.'))
  {
    SplitAt(head, '.', cut);
    SplitAt(head, '.', tail);
    SeenBehind(head, Split(tail, '.'));
  }

  lemma ParsedIsSeen(v: string)
    requires Accepted(v)
    ensures Parse(v).core == Read(v).core && Parse(v).prerelease == Seen(Read(v).prerelease)
  {
    SameCoreReading(v);
    var hyphen := IndexOf(v, '-');
    if hyphen < |v| {
      SplitSeen(v[hyphen + 1..]);
      FirstPiece(v[hyphen + 1..]);
    }
  }

  lemma FirstPiece(s: string)
    ensures Split(s, '-')[0] == s[..IndexOf(s, '-')]
  {
    if IndexOf(s, '-') == |s| { assert s[..|s|] == s; }
  }

  // ---- the exact condition ----

  /**
   Of two pre-releases the first identifiers that differ or have a hyphen. Without hyphens they are numbers that
   parseInt makes equal although they or the rest decide. With a hyphen and equal cut forms, one of them was whole, they
   were different or the rest decides. With a hyphen and different cut forms, see below.
   */
  ghost predicate Misread(p: seq<string>, q: seq<string>) {
    && p != [] && q != []
    && var x, y := p[0], q[0];
       if !Hyphened(x) && !Hyphened(y) then
         if x == y then Misread(p[1..], q[1..]) else Confused(x, y) && (Value(x) != Value(y) || Decides(p[1..], q[1..]))
       else if Cut(x) == Cut(y) then !Hyphened(x) || !Hyphened(y) || x != y || Decides(p[1..], q[1..])
       else CutToNumber(x, y)
  }

  /**
   Cutting leaves digits only, which are then taken for a number: two numbers that do not stand in the order of their
   texts, a number that is not greater than a real one, or a number that comes before a text it should follow.
   */
  predicate CutToNumber(x: string, y: string) {
    var a, b := Cut(x), Cut(y);
    if IsNumeric(a) && IsNumeric(b) then
      if Hyphened(x) && Hyphened(y) then !(if Less(a, b) then ParseInt(a) < ParseInt(b) else ParseInt(b) < ParseInt(a))
      else if Hyphened(x) then ParseInt(a) <= ParseInt(b)
      else ParseInt(b) <= ParseInt(a)
    else
      (IsNumeric(a) && Hyphened(x) && Less(b, a)) || (IsNumeric(b) && Hyphened(y) && Less(a, b))
  }

  /** Letters, digits and hyphens. */
  predicate Spelled(x: string) {
    forall i :: 0 <= i < |x| ==> IsAlphanumeric(x[i]) || x[i] == '-'
  }

  ghost predicate AllSpelled(p: seq<string>) {
    forall i :: 0 <= i < |p| ==> Spelled(p[i])
  }

  ghost predicate Decides(p: seq<string>, q: seq<string>) {
    PrereleaseBefore(p, q) || PrereleaseBefore(q, p)
  }

  /** Comparing what is seen gives the precedence of the whole. */
  ghost predicate SeenAgrees(p: seq<string>, q: seq<string>) {
    && (ComparePrereleases(Seen(p), Seen(q)) == -1 <==> PrereleaseBefore(p, q))
    && (ComparePrereleases(Seen(p), Seen(q)) == 1 <==> PrereleaseBefore(q, p))
  }

  lemma HyphenedIsText(x: string)
    requires Hyphened(x)
    ensures !IsNumeric(x)
  {
  }

  lemma WholeIsUncut(x: string)
    requires !Hyphened(x)
    ensures Cut(x) == x
  {
    assert IndexOf(x, '-') == |x|;
    assert x[..|x|] == x;
  }

  /** An identifier that is cut comes behind the one that is left of it. */
  lemma CutComesFirst(x: string, y: string)
    requires Hyphened(x) && !Hyphened(y) && Cut(x) == y
    ensures IdentifierBefore(y, x) && !SameIdentifier(x, y) && !IdentifierBefore(x, y)
  {
    HyphenedIsText(x);
    if !IsNumeric(y) {
      var k := |y|;
      assert x[..k] == y[..k];
      LessIsAsciiBefore(x, y);
      LessIsAsciiBefore(y, x);
      LessTotal(x, y);
    }
  }

  lemma OneIsCut(p: seq<string>, q: seq<string>)
    requires p != [] && q != [] && Hyphened(p[0]) && !Hyphened(q[0]) && Cut(p[0]) == q[0]
    ensures !SeenAgrees(p, q) && !SeenAgrees(q, p)
  {
    CutComesFirst(p[0], q[0]);
    PrereleaseHeads(q, p);
    SameHeads(q[0], [], Seen(q[1..]));
    SameHeads(q[0], Seen(q[1..]), []);
    assert Seen(p) == [q[0]] + [];
  }

  lemma SameHeads(x: string, p: seq<string>, q: seq<string>)
    ensures ComparePrereleases([x] + p, [x] + q) == ComparePrereleases(p, q)
  {
    assert ([x] + p)[1..] == p && ([x] + q)[1..] == q;
  }

  lemma BothAreCut(p: seq<string>, q: seq<string>)
    requires p != [] && q != [] && Hyphened(p[0]) && Hyphened(q[0]) && Cut(p[0]) == Cut(q[0])
    ensures SeenAgrees(p, q) <==> p[0] == q[0] && !Decides(p[1..], q[1..])
  {
    assert Seen(p) == Seen(q) && ComparePrereleases(Seen(p)[1..], Seen(q)[1..]) == 0;
    HyphenedIsText(p[0]);
    if p[0] == q[0] {
      PrereleaseTails(p, q);
      PrereleaseTails(q, p);
    } else {
      IdentifiersAgree(p[0], q[0]);
      PrereleaseHeads(p, q);
      PrereleaseHeads(q, p);
    }
  }

  /** A hyphen sorts before letters and digits, so texts stand in the order of their different cut forms. */
  lemma {:induction false} CutsSortAlike(x: string, y: string)
    requires Spelled(x) && Spelled(y) && Cut(x) != Cut(y)
    ensures Less(x, y) <==> Less(Cut(x), Cut(y))
  {
    if x != "" && y != "" && x[0] == y[0] && x[0] != '-' {
      CutBehind(x);
      CutBehind(y);
      assert Cut(x) == [x[0]] + Cut(x[1..]) && Cut(y) == [y[0]] + Cut(y[1..]);
      CutsSortAlike(x[1..], y[1..]);
    } else {
      if x != "" && x[0] != '-' { CutBehind(x); }
      if y != "" && y[0] != '-' { CutBehind(y); }
    }
  }

  lemma CutBehind(x: string)
    requires x != "" && x[0] != '-'
    ensures Cut(x) == [x[0]] + Cut(x[1..])
  {
  }

  lemma TextsSortAlike(x: string, y: string)
    requires Spelled(x) && Spelled(y) && Cut(x) != Cut(y) && !IsNumeric(x) && !IsNumeric(y)
    ensures IdentifierBefore(x, y) <==> Less(Cut(x), Cut(y))
    ensures Less(Cut(x), Cut(y)) <==> !Less(Cut(y), Cut(x))
  {
    LessIsAsciiBefore(x, y);
    CutsSortAlike(x, y);
    LessTotal(Cut(x), Cut(y));
  }

  lemma CutToNumberExactly(x: string, y: string)
    requires Spelled(x) && Spelled(y) && (Hyphened(x) || Hyphened(y)) && Cut(x) != Cut(y)
    ensures CutToNumber(x, y) <==> CompareIdentifiers(Cut(x), Cut(y)) != if IdentifierBefore(x, y) then -1 else 1
  {
    if Hyphened(x) { HyphenedIsText(x); } else { WholeIsUncut(x); }
    if Hyphened(y) { HyphenedIsText(y); } else { WholeIsUncut(y); }
    if !IsNumeric(x) && !IsNumeric(y) { TextsSortAlike(x, y); }
  }

  lemma CutsDiffer(p: seq<string>, q: seq<string>)
    requires p != [] && q != [] && (Hyphened(p[0]) || Hyphened(q[0])) && Cut(p[0]) != Cut(q[0])
    requires Spelled(p[0]) && Spelled(q[0])
    ensures SeenAgrees(p, q) <==> !CutToNumber(p[0], q[0])
  {
    CutToNumberExactly(p[0], q[0]);
    if Hyphened(p[0]) { HyphenedIsText(p[0]); } else { WholeIsUncut(p[0]); }
    if Hyphened(q[0]) { HyphenedIsText(q[0]); } else { WholeIsUncut(q[0]); }
    IdentifiersAgree(p[0], q[0]);
    PrereleaseHeads(p, q);
    PrereleaseHeads(q, p);
  }

  lemma WholeHeads(p: seq<string>, q: seq<string>)
    requires p != [] && q != [] && !Hyphened(p[0]) && !Hyphened(q[0]) && p[0] != q[0]
    ensures SeenAgrees(p, q) <==> !Misread(p, q)
  {
    if Confused(p[0], q[0]) && Value(p[0]) == Value(q[0]) {
      PrereleaseTails(p, q);
      PrereleaseTails(q, p);
    } else {
      if !Confused(p[0], q[0]) { IdentifiersAgree(p[0], q[0]); }
      PrereleaseHeads(p, q);
      PrereleaseHeads(q, p);
    }
  }

  lemma {:induction false} SeenAgreesExactly(p: seq<string>, q: seq<string>)
    requires AllSpelled(p) && AllSpelled(q)
    ensures SeenAgrees(p, q) <==> !Misread(p, q)
  {
    if p == [] || q == [] {
      PrereleaseEnds(p);
      PrereleaseEnds(q);
    } else if !Hyphened(p[0]) && !Hyphened(q[0]) {
      if p[0] == q[0] {
        SeenAgreesExactly(p[1..], q[1..]);
        PrereleaseTails(p, q);
        PrereleaseTails(q, p);
        assert Seen(p)[1..] == Seen(p[1..]) && Seen(q)[1..] == Seen(q[1..]);
      } else {
        WholeHeads(p, q);
      }
    } else if Cut(p[0]) != Cut(q[0]) {
      CutsDiffer(p, q);
    } else if Hyphened(p[0]) && Hyphened(q[0]) {
      BothAreCut(p, q);
    } else if Hyphened(p[0]) {
      WholeIsUncut(q[0]);
      OneIsCut(p, q);
    } else {
      WholeIsUncut(p[0]);
      OneIsCut(q, p);
    }
  }

  /**
   The exact condition for all accepted versions: compareVersions is the precedence of section 11 of Semantic
   Versioning 2.0.0 if and only if the cores differ or the pre-releases are not misread.
   */
  lemma AgreesExactlyUnlessMisread(l: string, r: string)
    requires Accepted(l) && Accepted(r)
    ensures (Compare(Parse(l), Parse(r)) == -1 <==> Precedes(Read(l), Read(r)))
            && (Compare(Parse(l), Parse(r)) == 1 <==> Precedes(Read(r), Read(l)))
            <==> !(SameCore(Read(l).core, Read(r).core) && Misread(Read(l).prerelease, Read(r).prerelease))
  {
    ParsedIsSeen(l);
    ParsedIsSeen(r);
    AcceptedIsSpelled(l);
    AcceptedIsSpelled(r);
    ReadingsAgreeExactly(Read(l), Read(r));
  }

  lemma AcceptedIsSpelled(v: string)
    requires Accepted(v)
    ensures AllSpelled(Read(v).prerelease)
  {
    var hyphen := IndexOf(v, '-');
    if hyphen < |v| {
      AcceptedSuffix(v, v[hyphen + 1..]);
      PiecesAreSpelled(v[hyphen + 1..]);
    }
  }

  lemma AcceptedSuffix(v: string, suffix: string)
    requires Accepted(v) && IndexOf(v, '-') < |v| && suffix == v[IndexOf(v, '-') + 1..]
    ensures forall i :: 0 <= i < |suffix| ==> IsAlphanumeric(suffix[i]) || suffix[i] == '.' || suffix[i] == '-'
    ensures Read(v).prerelease == Split(suffix, '.')
  {
  }

  lemma {:induction false} PiecesAreSpelled(s: string)
    requires forall i :: 0 <= i < |s| ==> IsAlphanumeric(s[i]) || s[i] == '.' || s[i] == '-'
    ensures AllSpelled(Split(s, '.'))
    decreases |s|
  {
    var d := IndexOf(s, '.');
    if d < |s| { PiecesAreSpelled(s[d + 1..]); }
  }

  lemma ReadingsAgreeExactly(a: SemVer, b: SemVer)
    requires AllSpelled(a.prerelease) && AllSpelled(b.prerelease)
    ensures var s, t := Parsed(a.core, Seen(a.prerelease)), Parsed(b.core, Seen(b.prerelease));
            (Compare(s, t) == -1 <==> Precedes(a, b)) && (Compare(s, t) == 1 <==> Precedes(b, a))
            <==> !(SameCore(a.core, b.core) && Misread(a.prerelease, b.prerelease))
  {
    CoresAgree(a.core, b.core);
    CoresAgree(b.core, a.core);
    SeenAgreesExactly(a.prerelease, b.prerelease);
  }
}
