/** The UTF-8 form of UTF-16 text, as section 3 of RFC 3629 defines it; a lone surrogate is written as U+FFFD. */
module Utf8 {
  import opened Utf16

  type Octet = o: int | 0 <= o < 256

  type Point = p: int | 0 <= p < 0x110000

  predicate IsHigh(u: Unit) {
    0xD800 <= u <= 0xDBFF
  }

  predicate IsLow(u: Unit) {
    0xDC00 <= u <= 0xDFFF
  }

  predicate StartsPair(s: Text) {
    |s| > 1 && IsHigh(s[0]) && IsLow(s[1])
  }

  /** The code point of a surrogate pair. */
  function Supplementary(high: int, low: int): (p: Point)
    requires 0xD800 <= high <= 0xDBFF && 0xDC00 <= low <= 0xDFFF
    ensures p >= 0x10000
  {
    0x10000 + (high - 0xD800) * 0x400 + (low - 0xDC00)
  }

  /** The code points of a text. */
  function Points(s: Text): seq<Point> {
    if s == [] then []
    else if StartsPair(s) then [Supplementary(s[0], s[1])] + Points(s[2..])
    else [if IsHigh(s[0]) || IsLow(s[0]) then 0xFFFD else s[0]] + Points(s[1..])
  }

  function Octets(p: Point): seq<Octet> {
    if p < 0x80 then [p]
    else if p < 0x800 then [0xC0 + p / 0x40, 0x80 + p % 0x40]
    else if p < 0x10000 then [0xE0 + p / 0x1000, 0x80 + p / 0x40 % 0x40, 0x80 + p % 0x40]
    else [0xF0 + p / 0x40000, 0x80 + p / 0x1000 % 0x40, 0x80 + p / 0x40 % 0x40, 0x80 + p % 0x40]
  }

  function Encoded(points: seq<Point>): seq<Octet> {
    if points == [] then [] else Octets(points[0]) + Encoded(points[1..])
  }

  // ---- the length alone ----

  function Width(u: Unit): nat {
    if u < 0x80 then 1 else if u < 0x800 then 2 else 3
  }

  function ByteLength(s: Text): nat {
    if s == [] then 0 else if StartsPair(s) then 4 + ByteLength(s[2..]) else Width(s[0]) + ByteLength(s[1..])
  }

  /** The number of octets of a text: one to three for a unit, four for a surrogate pair. */
  lemma {:induction false} ByteLengthCountsOctets(s: Text)
    ensures |Encoded(Points(s))| == ByteLength(s)
  {
    if s != [] {
      var first, rest := Points(s)[0], if StartsPair(s) then s[2..] else s[1..];
      ByteLengthCountsOctets(rest);
      assert Points(s) == [first] + Points(rest) && ([first] + Points(rest))[1..] == Points(rest);
    }
  }

  /** A shorter prefix never takes more octets. */
  lemma {:induction false} PrefixIsNoLonger(s: Text, n: nat)
    requires n <= |s|
    ensures ByteLength(s[..n]) <= ByteLength(s)
    decreases |s|
  {
    if n == 0 {
      assert s[..0] == [];
    } else if StartsPair(s) {
      if n == 1 {
        assert s[..1][1..] == [];
      } else {
        PrefixIsNoLonger(s[2..], n - 2);
        assert s[..n][2..] == s[2..][..n - 2];
      }
    } else {
      PrefixIsNoLonger(s[1..], n - 1);
      assert s[..n][1..] == s[1..][..n - 1];
    }
  }
}
