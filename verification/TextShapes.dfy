/** White space and control characters by their numbers, and UTF-16 against the code points it encodes. */
module TextShapes {
  import opened Utf16
  import opened Utf8

  /** White space and line terminators of ECMAScript, sections 12.2 and 12.3. */
  lemma SpacesAre(u: Unit)
    ensures IsSpace(u) <==>
            u in {9, 10, 11, 12, 13, 32, 160, 5760, 8232, 8233, 8239, 8287, 12288, 65279} || 8192 <= u < 8203
  {
  }

  /** The control characters of Unicode: the first 32, and those from 127 to 159. */
  lemma ControlsAre(u: Unit)
    ensures IsControl(u) <==> u < 32 || 127 <= u < 160
  {
  }

  /** A code point that is no surrogate. */
  predicate IsScalar(p: int) {
    0 <= p < 55296 || 57344 <= p < 1114112
  }

  /** UTF-16 as RFC 2781 defines it, section 2.1. */
  function Units(p: Point): Text {
    if p < 65536 then [p] else [55296 + (p - 65536) / 1024, 56320 + (p - 65536) % 1024]
  }

  function Written(points: seq<Point>): Text {
    if points == [] then [] else Units(points[0]) + Written(points[1..])
  }

  lemma FirstPoint(p: Point, rest: Text)
    requires IsScalar(p)
    ensures Points(Units(p) + rest) == [p] + Points(rest)
  {
    var s := Units(p) + rest;
    if p < 65536 {
      assert s[0] == p && s[1..] == rest;
    } else {
      assert s[0] == Units(p)[0] && s[1] == Units(p)[1] && s[2..] == rest;
      assert (p - 65536) / 1024 * 1024 + (p - 65536) % 1024 == p - 65536;
    }
  }

  /** Reading what was written gives the code points back. */
  lemma {:induction false} PointsAreReadBack(points: seq<Point>)
    requires forall i :: 0 <= i < |points| ==> IsScalar(points[i])
    ensures Points(Written(points)) == points
  {
    if points != [] {
      PointsAreReadBack(points[1..]);
      FirstPoint(points[0], Written(points[1..]));
    }
  }

  /** A surrogate without its partner counts as the replacement character. */
  lemma LoneSurrogateIsReplaced(u: Unit, rest: Text)
    requires 55296 <= u < 57344 && (rest == [] || u >= 56320 || rest[0] < 56320 || rest[0] >= 57344)
    ensures Points([u] + rest) == [65533] + Points(rest)
  {
    assert ([u] + rest)[1..] == rest;
  }
}
