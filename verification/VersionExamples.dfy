/** Versions on which compareVersions parts from Semantic Versioning 2.0.0. */
module VersionExamples {
  import opened Texts
  import opened Binary64
  import opened Versions
  import opened VersionOrder
  import opened VersionShapes

  lemma FirstRelease(head: string)
    requires head == "1.0.0"
    ensures Split(head, '.') == ["1", "0", "0"]
  {
    ThreePieces(head, "1", "0", "0");
  }

  lemma FirstNumbers(core: seq<string>)
    requires core == ["1", "0", "0"]
    ensures IsCore(core) && Numbers(core) == [1, 0, 0] && Values(core) == [1, 0, 0]
  {
    assert Value("1") == 1 && Value("0") == 0 && |Numbers(core)| == 3;
  }

  /** A pre-release of 1.0.0. */
  lemma PrereleaseOf(v: string, head: string, suffix: string)
    requires head == "1.0.0" && IsTag(suffix) && v == head + ['-'] + suffix
    ensures Accepted(v) && Read(v) == SemVer([1, 0, 0], Split(suffix, '.'))
    ensures '-' !in suffix ==> Parse(v) == Parsed([1, 0, 0], Split(suffix, '.'))
  {
    FirstRelease(head);
    FirstNumbers(Split(head, '.'));
    ComposedIsAccepted(v, head, suffix);
    ComposedIsRead(v, head, suffix);
  }

  lemma TwoIdentifiers(x: string, y: string)
    requires '.' !in x && '.' !in y
    ensures Split(x + "." + y, '.') == [x, y]
  {
    assert x + "." + y == x + ['.'] + y;
    SplitAt(x, '.', y);
    NoSeparator(y, '.');
  }

  lemma PrereleaseOfTwo(v: string, x: string, y: string)
    requires '.' !in x && '.' !in y && '-' !in x + "." + y && IsTag(x + "." + y) && v == "1.0.0" + ['-'] + (x + "." + y)
    ensures Accepted(v) && Parse(v) == Parsed([1, 0, 0], [x, y])
  {
    PrereleaseOf(v, "1.0.0", x + "." + y);
    TwoIdentifiers(x, y);
  }

  /** With a leading zero the comparison stops at the equal numbers, and transitivity is lost. */
  lemma LeadingZerosBreakTransitivity(u: string, v: string, w: string)
    requires u == "1.0.0-1.b" && v == "1.0.0-01.a" && w == "1.0.0-1.a"
    ensures Accepted(u) && Accepted(v) && Accepted(w)
    ensures Compare(Parse(u), Parse(v)) == 0 && Compare(Parse(v), Parse(w)) == 0 && Compare(Parse(u), Parse(w)) == 1
  {
    OneDotB(u);
    ZeroOneDotA(v);
    OneDotA(w);
    LeadingZerosCompareEqual();
  }

  lemma OneDotB(u: string)
    requires u == "1.0.0-1.b"
    ensures Accepted(u) && Parse(u) == Parsed([1, 0, 0], ["1", "b"])
  {
    PrereleaseOfTwo(u, "1", "b");
  }

  lemma ZeroOneDotA(v: string)
    requires v == "1.0.0-01.a"
    ensures Accepted(v) && Parse(v) == Parsed([1, 0, 0], ["01", "a"])
  {
    PrereleaseOfTwo(v, "01", "a");
  }

  lemma OneDotA(w: string)
    requires w == "1.0.0-1.a"
    ensures Accepted(w) && Parse(w) == Parsed([1, 0, 0], ["1", "a"])
  {
    PrereleaseOfTwo(w, "1", "a");
  }

  lemma LeadingZerosCompareEqual()
    ensures var u, v, w := Parsed([1, 0, 0], ["1", "b"]), Parsed([1, 0, 0], ["01", "a"]), Parsed([1, 0, 0], ["1", "a"]);
            Compare(u, v) == 0 && Compare(v, w) == 0 && Compare(u, w) == 1
  {
    assert "01"[..1] == "0" && Value("0") == 0 && Value("1") == 1 && Value("01") == 1;
    assert "1" != "01" && ["1", "b"][1..] == ["b"] && ["1", "a"][1..] == ["a"];
    assert Less("a", "b") && !Less("b", "a");
  }

  /** One digit more. */
  lemma Digit(s: string, n: nat, c: char) returns (t: string)
    requires Value(s) == n && IsDigit(c)
    ensures t == s + [c] && Value(t) == 10 * n + (c as nat - '0' as nat)
  {
    t := s + [c];
    assert t[..|s|] == s;
  }

  lemma FirstFive() returns (t: string)
    ensures t == "90071" && Value(t) == 90071
  {
    t := Digit("", 0, '9');
    t := Digit(t, 9, '0');
    t := Digit(t, 90, '0');
    t := Digit(t, 900, '7');
    t := Digit(t, 9007, '1');
  }

  lemma FirstTen() returns (t: string)
    ensures t == "9007199254" && Value(t) == 9007199254
  {
    t := FirstFive();
    t := Digit(t, 90071, '9');
    t := Digit(t, 900719, '9');
    t := Digit(t, 9007199, '2');
    t := Digit(t, 90071992, '5');
    t := Digit(t, 900719925, '4');
  }

  lemma FirstFifteen() returns (t: string)
    ensures t == "900719925474099" && Value(t) == 900719925474099
  {
    t := FirstTen();
    t := Digit(t, 9007199254, '7');
    t := Digit(t, 90071992547, '4');
    t := Digit(t, 900719925474, '0');
    t := Digit(t, 9007199254740, '9');
    t := Digit(t, 90071992547409, '9');
  }

  lemma NearestAboveExact()
    ensures Nearest(EXACT + 1) == EXACT == Nearest(EXACT)
  {
    SmallNumbersAreExact(EXACT);
    assert Scale(EXACT + 1) == 1 + Scale((EXACT + 1) / 2) == 1;
    assert Pow2(1) == 2;
  }

  lemma PrereleaseOfOne(v: string, x: string)
    requires '.' !in x && IsTag(x) && v == "1.0.0" + ['-'] + x
    ensures Accepted(v) && Read(v) == SemVer([1, 0, 0], [x]) && ('-' !in x ==> Parse(v) == Parsed([1, 0, 0], [x]))
  {
    PrereleaseOf(v, "1.0.0", x);
    NoSeparator(x, '.');
  }

  /** Above 2^53 two different numbers can be one and the same, and versions that differ in them compare as equal. */
  lemma HugeNumbersCollide(u: string, v: string)
    requires u == "1.0.0-9007199254740992" && v == "1.0.0-9007199254740993"
    ensures Accepted(u) && Accepted(v) && Compare(Parse(u), Parse(v)) == 0 && Precedes(Read(u), Read(v))
  {
    var x := HugeSuffix(u, '2');
    var y := HugeSuffix(v, '3');
    HugeNumbersBlur(x, y);
  }

  lemma HugeSuffix(v: string, c: char) returns (x: string)
    requires IsDigit(c) && v == "1.0.0-900719925474099" + [c]
    ensures IsNumeric(x) && Value(x) == 9007199254740990 + (c as nat - '0' as nat)
    ensures Accepted(v) && Parse(v) == Parsed([1, 0, 0], [x]) && Read(v) == SemVer([1, 0, 0], [x])
  {
    x := HugeDigits(c);
    PrereleaseOfOne(v, x);
  }

  lemma HugeDigits(c: char) returns (x: string)
    requires IsDigit(c)
    ensures x == "900719925474099" + [c] && '.' !in x && IsTag(x) && IsNumeric(x)
    ensures Value(x) == 9007199254740990 + (c as nat - '0' as nat)
  {
    x := FirstFifteen();
    x := Digit(x, 900719925474099, c);
  }

  lemma HugeNumbersBlur(x: string, y: string)
    requires IsNumeric(x) && IsNumeric(y) && Value(x) == EXACT && Value(y) == EXACT + 1
    ensures Compare(Parsed([1, 0, 0], [x]), Parsed([1, 0, 0], [y])) == 0
    ensures Precedes(SemVer([1, 0, 0], [x]), SemVer([1, 0, 0], [y]))
  {
    NearestAboveExact();
    PrereleaseHeads([x], [y]);
  }

  /** What follows a second hyphen is lost: two versions that Semantic Versioning orders compare as equal. */
  lemma SecondHyphenIsLost(u: string, v: string)
    requires u == "1.0.0-a-b" && v == "1.0.0-a"
    ensures Accepted(u) && Accepted(v) && Compare(Parse(u), Parse(v)) == 0 && Precedes(Read(v), Read(u))
  {
    LetterA(v, "a");
    LettersAB(u, "a-b");
    ParsedAlike(u, v);
    AIsFirst("a", "a-b");
  }

  lemma LetterA(v: string, x: string)
    requires v == "1.0.0-a" && x == "a"
    ensures Accepted(v) && Read(v) == SemVer([1, 0, 0], [x])
  {
    PrereleaseOfOne(v, x);
  }

  lemma LettersAB(u: string, y: string)
    requires u == "1.0.0-a-b" && y == "a-b"
    ensures Accepted(u) && Read(u) == SemVer([1, 0, 0], [y])
  {
    PrereleaseOfOne(u, y);
  }

  lemma ParsedAlike(u: string, v: string)
    requires u == "1.0.0-a-b" && v == "1.0.0-a"
    ensures Compare(Parse(u), Parse(v)) == 0
  {
    assert v[5] == '-';
    LostIsIgnored(u, v, "b");
  }

  lemma LostIsIgnored(u: string, v: string, z: string)
    requires u == v + ['-'] + z && '-' in v
    ensures Compare(Parse(u), Parse(v)) == 0
  {
    assert u == v + "-" + z;
    TextAfterASecondHyphenIsIgnored(v, z);
  }

  lemma AIsFirst(x: string, y: string)
    requires x == "a" && y == "a-b"
    ensures Precedes(SemVer([1, 0, 0], [x]), SemVer([1, 0, 0], [y]))
  {
    assert x[..1] == y[..1];
    assert AsciiBefore(x, y);
    PrereleaseHeads([x], [y]);
  }
}
