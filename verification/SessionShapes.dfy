/** The ids and handles of stored browser sessions, said as texts that are put together from pieces. */
module SessionShapes {
  import opened Wrappers
  import opened Utf16
  import opened Bounding
  import opened SessionRecords

  /** The characters of a string. */
  predicate Of(u: Unit, characters: string) {
    exists i :: 0 <= i < |characters| && characters[i] as int == u
  }

  predicate AllOf(s: Text, characters: string) {
    forall i :: 0 <= i < |s| ==> Of(s[i], characters)
  }

  const HEX := "0123456789abcdefABCDEF"
  const DIGITS := "0123456789"
  const LOWER := "abcdefghijklmnopqrstuvwxyz"

  lemma HexIs(u: Unit)
    ensures IsHex(u) <==> Of(u, HEX)
  {
    if 0x30 <= u <= 0x39 { assert HEX[u - 0x30] as int == u; }
    if 0x61 <= u <= 0x66 { assert HEX[10 + u - 0x61] as int == u; }
    if 0x41 <= u <= 0x46 { assert HEX[16 + u - 0x41] as int == u; }
  }

  lemma DigitIs(u: Unit)
    ensures 0x30 <= u <= 0x39 <==> Of(u, DIGITS)
  {
    if 0x30 <= u <= 0x39 { assert DIGITS[u - 0x30] as int == u; }
  }

  lemma LowerIs(u: Unit)
    ensures 0x61 <= u <= 0x7A <==> Of(u, LOWER)
  {
    if 0x61 <= u <= 0x7A { assert LOWER[u - 0x61] as int == u; }
  }

  // ---- surface ids ----

  const HYPHEN: Text := [0x2D]

  predicate Group(s: Text, n: nat) {
    |s| == n && AllOf(s, HEX)
  }

  /** Five groups of hexadecimal digits with hyphens between them. */
  function Joined(a: Text, b: Text, c: Text, d: Text, e: Text): Text {
    a + HYPHEN + b + HYPHEN + c + HYPHEN + d + HYPHEN + e
  }

  predicate IsVariant(u: Unit) {
    Of(u, "89abAB")
  }

  ghost predicate Groups(s: Text, a: Text, b: Text, c: Text, d: Text, e: Text) {
    s == Joined(a, b, c, d, e) && Group(a, 8) && Group(b, 4) && Group(c, 4) && Group(d, 4) && Group(e, 12) && IsVariant(d[0])
  }

  lemma VariantIs(u: Unit, characters: string)
    requires characters == "89abAB"
    ensures Of(u, characters) <==> u == 0x38 || u == 0x39 || u == 0x61 || u == 0x62 || u == 0x41 || u == 0x42
  {
    if u == 0x38 { assert characters[0] as int == u; }
    if u == 0x39 { assert characters[1] as int == u; }
    if u == 0x61 { assert characters[2] as int == u; }
    if u == 0x62 { assert characters[3] as int == u; }
    if u == 0x41 { assert characters[4] as int == u; }
    if u == 0x42 { assert characters[5] as int == u; }
  }

  lemma HexPiece(s: Text, from: nat, to: nat)
    requires from <= to <= |s|
    ensures AllOf(s[from..to], HEX) <==> forall i :: from <= i < to ==> IsHex(s[i])
  {
    forall u: Unit ensures IsHex(u) <==> Of(u, HEX) { HexIs(u); }
    if forall i :: from <= i < to ==> IsHex(s[i]) {
      forall i | 0 <= i < to - from ensures Of(s[from..to][i], HEX) { assert s[from..to][i] == s[from + i]; }
    }
    if AllOf(s[from..to], HEX) {
      forall i | from <= i < to ensures IsHex(s[i]) { assert s[from..to][i - from] == s[i]; }
    }
  }

  /** A text of 36 units with hyphens at four places is cut at them. */
  lemma CutAtHyphens(s: Text)
    requires |s| == 36 && s[8] == s[13] == s[18] == s[23] == 0x2D
    ensures s == Joined(s[0..8], s[9..13], s[14..18], s[19..23], s[24..36])
  {
  }

  lemma JoinedPlaces(s: Text, a: Text, b: Text, c: Text, d: Text, e: Text)
    requires s == Joined(a, b, c, d, e) && |a| == 8 && |b| == |c| == |d| == 4 && |e| == 12
    ensures |s| == 36 && s[8] == s[13] == s[18] == s[23] == 0x2D
    ensures a == s[0..8] && b == s[9..13] && c == s[14..18] && d == s[19..23] && e == s[24..36]
  {
  }

  lemma PiecesAreHex(s: Text)
    requires |s| == 36 && s[8] == s[13] == s[18] == s[23] == 0x2D
    ensures IsSurfaceId(s) <==>
            && AllOf(s[0..8], HEX) && AllOf(s[9..13], HEX) && AllOf(s[14..18], HEX) && AllOf(s[19..23], HEX) && AllOf(s[24..36], HEX)
            && IsVariant(s[19])
  {
    HexPiece(s, 0, 8);
    HexPiece(s, 9, 13);
    HexPiece(s, 14, 18);
    HexPiece(s, 19, 23);
    HexPiece(s, 24, 36);
    VariantIs(s[19], "89abAB");
  }

  /** A surface id is accepted exactly when it is a UUID: groups of 8, 4, 4, 4 and 12 digits, the fourth from 8, 9, a or b. */
  lemma SurfaceIdExactly(s: Text)
    ensures IsSurfaceId(s) <==> exists a, b, c, d, e :: Groups(s, a, b, c, d, e)
  {
    if IsSurfaceId(s) {
      CutAtHyphens(s);
      PiecesAreHex(s);
      assert Groups(s, s[0..8], s[9..13], s[14..18], s[19..23], s[24..36]);
    }
    if a, b, c, d, e :| Groups(s, a, b, c, d, e) {
      JoinedPlaces(s, a, b, c, d, e);
      PiecesAreHex(s);
    }
  }

  // ---- handles and profile ids ----

  /** A handle is accepted exactly when it is surface: and a number of at most nine digits that does not begin with zero. */
  lemma HandleExactly(s: Text)
    ensures IsHandle(s) <==>
            exists number: Text :: s == SURFACE + number && 1 <= |number| <= 9 && number[0] != 0x30 && AllOf(number, DIGITS)
  {
    forall u: Unit ensures 0x30 <= u <= 0x39 <==> Of(u, DIGITS) { DigitIs(u); }
    assert |SURFACE| == 8;
    if IsHandle(s) {
      var number := s[8..];
      assert s == s[..8] + number;
      assert s == SURFACE + number && AllOf(number, DIGITS);
    }
    if number: Text :| s == SURFACE + number && 1 <= |number| <= 9 && number[0] != 0x30 && AllOf(number, DIGITS) {
      assert s[..8] == SURFACE && s[8] == number[0];
      forall i | 8 <= i < |s| ensures 0x30 <= s[i] <= 0x39 { assert s[i] == number[i - 8]; }
    }
  }

  /** A profile id has 1 to 64 characters, begins with a lower-case letter and is neither default nor session. */
  lemma ProfileIdExactly(s: Text)
    ensures IsProfileId(s) <==>
            && 1 <= |s| <= 64 && Of(s[0], LOWER) && s != Ascii("default") && s != Ascii("session")
            && forall i :: 0 <= i < |s| ==> Of(s[i], LOWER) || Of(s[i], DIGITS) || s[i] in {46, 95, 45}
  {
    forall u: Unit ensures 0x30 <= u <= 0x39 <==> Of(u, DIGITS) { DigitIs(u); }
    forall u: Unit ensures 0x61 <= u <= 0x7A <==> Of(u, LOWER) { LowerIs(u); }
  }
}
