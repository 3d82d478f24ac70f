/** Text as JavaScript holds it: a sequence of UTF-16 code units, lone surrogates included. */
module Utf16 {
  type Unit = u: int | 0 <= u < 0x10000

  type Text = seq<Unit>

  const SPACE: Unit := 0x20

  /** The white space of String.prototype.trim and of \s in a regular expression. */
  predicate IsSpace(u: Unit) {
    || 9 <= u <= 13 || u == 0x20 || u == 0xA0 || u == 0x1680 || 0x2000 <= u <= 0x200A
    || u == 0x2028 || u == 0x2029 || u == 0x202F || u == 0x205F || u == 0x3000 || u == 0xFEFF
  }

  predicate IsControl(u: Unit) {
    u <= 0x1F || 0x7F <= u <= 0x9F
  }

  function TrimLeft(s: Text): (r: Text)
    ensures |r| <= |s| && (r != [] ==> !IsSpace(r[0]))
  {
    if s != [] && IsSpace(s[0]) then TrimLeft(s[1..]) else s
  }

  function TrimRight(s: Text): (r: Text)
    ensures r <= s && (r != [] ==> !IsSpace(r[|r| - 1]))
  {
    if s != [] && IsSpace(s[|s| - 1]) then TrimRight(s[..|s| - 1]) else s
  }

  function Trim(s: Text): (r: Text)
    ensures |r| <= |s| && (r != [] ==> !IsSpace(r[0]) && !IsSpace(r[|r| - 1]))
  {
    TrimRight(TrimLeft(s))
  }

  /** Control characters become spaces. */
  function Printable(u: Unit): Unit {
    if IsControl(u) then SPACE else u
  }

  function Spaced(s: Text): (r: Text)
    ensures |r| == |s| && forall i :: 0 <= i < |s| ==> r[i] == Printable(s[i])
  {
    if s == [] then [] else [Printable(s[0])] + Spaced(s[1..])
  }

  /** Printable ASCII without the space. */
  predicate Graphic(s: Text) {
    forall i :: 0 <= i < |s| ==> 0x21 <= s[i] <= 0x7E
  }
}
