/** The labels of local profiles (apps/desktop/src/local-profiles.ts): cleaning, and the label derived from an id. */
module ProfileLabels {
  import opened Wrappers
  import opened Utf16

  const MAX_LABEL := 128

  // ---- cleaning ----

  /** Every run of white space becomes one space. */
  function Collapse(s: Text): Text {
    if s == [] then []
    else if !IsSpace(s[0]) then [s[0]] + Collapse(s[1..])
    else if |s| > 1 && IsSpace(s[1]) then Collapse(s[1..])
    else [SPACE] + Collapse(s[1..])
  }

  function Squeeze(s: Text): Text {
    Collapse(Trim(Spaced(s)))
  }

  function Cut(s: Text): Text {
    if |s| <= MAX_LABEL then s else s[..MAX_LABEL]
  }

  function SafeLabel(value: Option<Text>, fallback: Text): Text {
    if value.None? || Cut(Squeeze(value.value)) == [] then fallback else Cut(Squeeze(value.value))
  }

  /** A label that the registry stores: cleaning leaves it as it is. */
  predicate GoodLabel(name: Text) {
    name != [] && SafeLabel(Some(name), []) == name
  }

  /** safeLabel; its loop is that of ReplaceControls. */
  method CleanLabel(value: Option<Text>, fallback: Text) returns (name: Text)
    ensures name == SafeLabel(value, fallback)
  {
    if value.None? { return fallback; }
    var cleaned := ReplaceControls(value.value);
    cleaned := Collapse(Trim(cleaned));
    if |cleaned| > MAX_LABEL { cleaned := cleaned[..MAX_LABEL]; }
    name := if cleaned == [] then fallback else cleaned;
  }

  method ReplaceControls(value: Text) returns (cleaned: Text)
    ensures cleaned == Spaced(value)
  {
    cleaned := [];
    var i := 0;
    while i < |value|
      invariant 0 <= i <= |value| && cleaned == Spaced(value)[..i]
    {
      cleaned := cleaned + [if IsControl(value[i]) then SPACE else value[i]];
      i := i + 1;
    }
  }

  // ---- what a clean label looks like ----

  predicate NoControl(s: Text) {
    forall i :: 0 <= i < |s| ==> !IsControl(s[i])
  }

  /** White space is a single plain space, never two in a row. */
  predicate Single(s: Text) {
    forall i :: 0 <= i < |s| && IsSpace(s[i]) ==> s[i] == SPACE && (i + 1 < |s| ==> !IsSpace(s[i + 1]))
  }

  predicate Edged(s: Text) {
    s != [] ==> !IsSpace(s[0]) && !IsSpace(s[|s| - 1])
  }

  predicate Tidy(s: Text) {
    NoControl(s) && Single(s) && Edged(s)
  }

  lemma {:induction false} CollapseKeepsEnds(s: Text)
    ensures |Collapse(s)| <= |s| && (s == [] <==> Collapse(s) == [])
    ensures s != [] ==> (IsSpace(Collapse(s)[0]) <==> IsSpace(s[0]))
    ensures s != [] ==> (IsSpace(Collapse(s)[|Collapse(s)| - 1]) <==> IsSpace(s[|s| - 1]))
  {
    if s != [] { CollapseKeepsEnds(s[1..]); }
  }

  lemma SingleCons(u: Unit, s: Text)
    requires Single(s) && (IsSpace(u) ==> u == SPACE && (s != [] ==> !IsSpace(s[0])))
    ensures Single([u] + s)
  {
  }

  lemma {:induction false} CollapseIsSingle(s: Text)
    ensures Single(Collapse(s))
  {
    if s != [] {
      var rest := Collapse(s[1..]);
      CollapseIsSingle(s[1..]);
      CollapseKeepsEnds(s[1..]);
      if !IsSpace(s[0]) { SingleCons(s[0], rest); }
      else if |s| == 1 || !IsSpace(s[1]) { SingleCons(SPACE, rest); }
    }
  }

  lemma {:induction false} CollapseNoControl(s: Text)
    requires NoControl(s)
    ensures NoControl(Collapse(s))
  {
    if s != [] { CollapseNoControl(s[1..]); }
  }

  lemma {:induction false} CollapseSingle(s: Text)
    requires Single(s)
    ensures Collapse(s) == s
  {
    if s != [] {
      assert Single(s[1..]);
      CollapseSingle(s[1..]);
    }
  }

  lemma TrimNoControl(s: Text)
    requires NoControl(s)
    ensures NoControl(Trim(s))
  {
    TrimLeftNoControl(s);
  }

  lemma {:induction false} TrimLeftNoControl(s: Text)
    requires NoControl(s)
    ensures NoControl(TrimLeft(s))
  {
    if s != [] && IsSpace(s[0]) { TrimLeftNoControl(s[1..]); }
  }

  lemma CollapseIsTidy(s: Text)
    requires NoControl(s) && Edged(s)
    ensures Tidy(Collapse(s)) && |Collapse(s)| <= |s|
  {
    CollapseNoControl(s);
    CollapseIsSingle(s);
    CollapseKeepsEnds(s);
  }

  lemma SqueezeIsTidy(s: Text)
    ensures Tidy(Squeeze(s)) && |Squeeze(s)| <= |s|
  {
    TrimNoControl(Spaced(s));
    CollapseIsTidy(Trim(Spaced(s)));
  }

  lemma SqueezeTidy(s: Text)
    requires Tidy(s)
    ensures Squeeze(s) == s
  {
    assert Spaced(s) == s;
    assert Trim(s) == s;
    CollapseSingle(s);
  }

  /** The labels the registry accepts are exactly the tidy ones of 1 to 128 code units. */
  lemma GoodLabelsAreTidy(name: Text)
    ensures GoodLabel(name) <==> name != [] && |name| <= MAX_LABEL && Tidy(name)
  {
    SqueezeIsTidy(name);
    if name != [] && |name| <= MAX_LABEL && Tidy(name) { SqueezeTidy(name); }
  }

  /**
   Cleaning is idempotent except when the cut at 128 code units leaves a space at the end: then the cleaned label is
   itself rejected.
   */
  lemma CleanLabelIsGood(value: Text, fallback: Text)
    requires Squeeze(value) != []
    ensures GoodLabel(SafeLabel(Some(value), fallback)) <==>
            |Squeeze(value)| <= MAX_LABEL || Squeeze(value)[MAX_LABEL - 1] != SPACE
  {
    SqueezeIsTidy(value);
    CutIsTidy(Squeeze(value));
    GoodLabelsAreTidy(Cut(Squeeze(value)));
  }

  lemma CutIsTidy(s: Text)
    requires Tidy(s) && s != []
    ensures Cut(s) != [] && |Cut(s)| <= MAX_LABEL
    ensures Tidy(Cut(s)) <==> |s| <= MAX_LABEL || s[MAX_LABEL - 1] != SPACE
  {
    if |s| > MAX_LABEL {
      var cut := s[..MAX_LABEL];
      assert cut[MAX_LABEL - 1] == s[MAX_LABEL - 1] && (IsSpace(s[MAX_LABEL - 1]) ==> s[MAX_LABEL - 1] == SPACE);
    }
  }

  // ---- the derived label ----

  predicate IsSeparator(u: Unit) {
    u == 0x2E || u == 0x5F || u == 0x2D
  }

  function Upper(u: Unit): Unit {
    if 0x61 <= u <= 0x7A then u - 0x20 else u
  }

  datatype Place = Before | Between | Inside

  /** The words between separators, each with a capital first letter, joined by single spaces. */
  function Words(s: Text, place: Place): Text {
    if s == [] then []
    else if IsSeparator(s[0]) then Words(s[1..], if place == Before then Before else Between)
    else if place == Inside then [s[0]] + Words(s[1..], Inside)
    else (if place == Between then [SPACE] else []) + [Upper(s[0])] + Words(s[1..], Inside)
  }

  function DerivedLabel(id: Text): Text {
    if Words(id, Before) == [] then id else Words(id, Before)
  }

  lemma GraphicIsNoSpace(u: Unit)
    requires 0x21 <= u <= 0x7E
    ensures !IsSpace(u) && !IsSpace(Upper(u)) && !IsControl(u) && !IsControl(Upper(u))
  {
  }

  function Next(u: Unit, place: Place): Place {
    if !IsSeparator(u) then Inside else if place == Before then Before else Between
  }

  lemma {:induction false} WordsAreSingle(s: Text, place: Place)
    requires Graphic(s)
    ensures NoControl(Words(s, place)) && Single(Words(s, place))
    ensures Words(s, place) != [] && place == Before ==> !IsSpace(Words(s, place)[0])
  {
    if s != [] {
      GraphicIsNoSpace(s[0]);
      var rest := Words(s[1..], Next(s[0], place));
      WordsAreSingle(s[1..], Next(s[0], place));
      if !IsSeparator(s[0]) {
        var first := if place == Inside then s[0] else Upper(s[0]);
        SingleCons(first, rest);
        SingleCons(SPACE, [first] + rest);
        assert [SPACE] + [first] + rest == [SPACE] + ([first] + rest);
        assert [] + [first] + rest == [first] + rest;
      }
    }
  }

  lemma {:induction false} WordsEnd(s: Text, place: Place)
    requires Graphic(s)
    ensures Words(s, place) != [] ==> !IsSpace(Words(s, place)[|Words(s, place)| - 1])
    ensures |Words(s, place)| <= |s| + (if place == Between then 1 else 0)
  {
    if s != [] {
      GraphicIsNoSpace(s[0]);
      WordsEnd(s[1..], Next(s[0], place));
    }
  }

  lemma GraphicIsTidy(s: Text)
    requires Graphic(s)
    ensures Tidy(s)
  {
    forall i | 0 <= i < |s| ensures !IsSpace(s[i]) && !IsControl(s[i]) { GraphicIsNoSpace(s[i]); }
  }

  /** The label a profile gets by default is one the registry accepts. */
  lemma DerivedLabelIsGood(id: Text)
    requires Graphic(id) && 1 <= |id| <= 64
    ensures GoodLabel(DerivedLabel(id))
  {
    WordsAreSingle(id, Before);
    WordsEnd(id, Before);
    GraphicIsTidy(id);
    GoodLabelsAreTidy(DerivedLabel(id));
  }
}
