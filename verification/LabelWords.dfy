/** Labels by their words: what cleaning keeps of a label, and what is derived from an id. */
module LabelWords {
  import opened Wrappers
  import opened Utf16
  import opened ProfileLabels

  /** The longest stretches without a gap, in order. */
  function Stretches(s: Text, gap: Unit -> bool): (r: seq<Text>)
    ensures s != [] && !gap(s[0]) ==> r != []
    ensures forall i :: 0 <= i < |r| ==> r[i] != []
  {
    if s == [] then []
    else if gap(s[0]) then Stretches(s[1..], gap)
    else if |s| == 1 || gap(s[1]) then [[s[0]]] + Stretches(s[1..], gap)
    else
      var rest := Stretches(s[1..], gap);
      [[s[0]] + rest[0]] + rest[1..]
  }

  function Spread(words: seq<Text>): Text {
    if words == [] then [] else if |words| == 1 then words[0] else words[0] + [SPACE] + Spread(words[1..])
  }

  lemma SpreadCons(word: Text, words: seq<Text>)
    requires words != []
    ensures Spread([word] + words) == word + [SPACE] + Spread(words)
  {
    assert ([word] + words)[1..] == words;
  }

  lemma SpreadLonger(u: Unit, words: seq<Text>)
    requires words != []
    ensures Spread([[u] + words[0]] + words[1..]) == [u] + Spread(words)
  {
    var longer := [[u] + words[0]] + words[1..];
    assert longer[1..] == words[1..];
    if |words| > 1 {
      assert Spread(longer) == [u] + words[0] + [SPACE] + Spread(words[1..]);
    }
  }

  // ---- cleaning ----

  predicate IsBlank(u: Unit) {
    IsSpace(u) || IsControl(u)
  }

  function WordsOf(s: Text): seq<Text> {
    Stretches(s, IsBlank)
  }

  lemma {:induction false} SpacedKeepsWords(s: Text)
    ensures WordsOf(Spaced(s)) == WordsOf(s)
  {
    if s != [] {
      assert Spaced(s)[1..] == Spaced(s[1..]);
      SpacedKeepsWords(s[1..]);
    }
  }

  lemma {:induction false} TrimLeftKeepsWords(s: Text)
    ensures WordsOf(TrimLeft(s)) == WordsOf(s)
  {
    if s != [] && IsSpace(s[0]) { TrimLeftKeepsWords(s[1..]); }
  }

  lemma {:induction false} BlankEnd(s: Text, u: Unit)
    requires IsBlank(u)
    ensures WordsOf(s + [u]) == WordsOf(s)
  {
    if s == [] {
      assert [] + [u] == [u] && [u][1..] == [];
      assert WordsOf([]) == [];
    } else {
      assert (s + [u])[1..] == s[1..] + [u];
      BlankEnd(s[1..], u);
    }
  }

  lemma {:induction false} TrimRightKeepsWords(s: Text)
    ensures WordsOf(TrimRight(s)) == WordsOf(s)
  {
    if s != [] && IsSpace(s[|s| - 1]) {
      var rest := s[..|s| - 1];
      TrimRightKeepsWords(rest);
      assert s == rest + [s[|s| - 1]];
      BlankEnd(rest, s[|s| - 1]);
    }
  }

  lemma {:induction false} CollapseKeepsWords(s: Text)
    ensures WordsOf(Collapse(s)) == WordsOf(s)
  {
    if s != [] {
      var rest := Collapse(s[1..]);
      CollapseKeepsWords(s[1..]);
      CollapseKeepsEnds(s[1..]);
      if !IsSpace(s[0]) {
        assert ([s[0]] + rest)[1..] == rest;
        if |s| > 1 { CollapseKeepsFirst(s[1..]); }
      } else if |s| == 1 || !IsSpace(s[1]) {
        assert ([SPACE] + rest)[1..] == rest;
      }
    }
  }

  lemma {:induction false} CollapseKeepsFirst(s: Text)
    requires s != []
    ensures Collapse(s) != [] && (IsBlank(Collapse(s)[0]) <==> IsBlank(s[0]))
  {
    if IsSpace(s[0]) && |s| > 1 && IsSpace(s[1]) { CollapseKeepsFirst(s[1..]); }
  }

  /** Tidy text is its words with single spaces between them. */
  lemma {:induction false} TidyIsSpread(s: Text)
    requires NoControl(s) && Single(s) && (s != [] ==> !IsSpace(s[|s| - 1]))
    ensures s == (if s != [] && IsSpace(s[0]) then [SPACE] else []) + Spread(WordsOf(s))
    ensures s != [] ==> WordsOf(s) != []
  {
    if s != [] {
      var rest := s[1..];
      assert s == [s[0]] + rest;
      if rest != [] {
        assert Single(rest) && rest[|rest| - 1] == s[|s| - 1];
        TidyIsSpread(rest);
      }
      if !IsBlank(s[0]) {
        if rest == [] {
          assert WordsOf([]) == [] && WordsOf(s) == [[s[0]]] + WordsOf([]);
        } else if IsBlank(rest[0]) {
          SpreadCons([s[0]], WordsOf(rest));
        } else {
          SpreadLonger(s[0], WordsOf(rest));
        }
      }
    }
  }

  /** Cleaning keeps the words of a label, in order, and puts single spaces between them. */
  lemma CleaningKeepsTheWords(s: Text)
    ensures Squeeze(s) == Spread(WordsOf(s))
  {
    SpacedKeepsWords(s);
    TrimLeftKeepsWords(Spaced(s));
    TrimRightKeepsWords(TrimLeft(Spaced(s)));
    CollapseKeepsWords(Trim(Spaced(s)));
    SqueezeIsTidy(s);
    TidyIsSpread(Squeeze(s));
  }

  /** A label is cleaned to its words, cut at 128 code units, or to the fallback when it has none. */
  lemma CleanedLabelIs(value: Option<Text>, fallback: Text)
    ensures SafeLabel(value, fallback) ==
            if value.None? || WordsOf(value.value) == [] then fallback
            else
              var words := Spread(WordsOf(value.value));
              if |words| <= 128 then words else words[..128]
  {
    if value.Some? {
      CleaningKeepsTheWords(value.value);
      SpreadIsSomething(WordsOf(value.value));
    }
  }

  lemma SpreadIsSomething(words: seq<Text>)
    requires forall i :: 0 <= i < |words| ==> words[i] != []
    ensures Spread(words) == [] <==> words == []
  {
  }

  // ---- the derived label ----

  function Capitalised(word: Text): Text {
    if word == [] then [] else [if 0x61 <= word[0] <= 0x7A then word[0] - 0x20 else word[0]] + word[1..]
  }

  function AllCapitalised(words: seq<Text>): (r: seq<Text>)
    ensures |r| == |words| && forall i :: 0 <= i < |r| ==> r[i] == Capitalised(words[i])
  {
    if words == [] then [] else [Capitalised(words[0])] + AllCapitalised(words[1..])
  }

  /** A dot, an underscore or a hyphen. */
  predicate IsMark(u: Unit) {
    u == 0x2E || u == 0x5F || u == 0x2D
  }

  function PartsOf(id: Text): seq<Text> {
    Stretches(id, IsMark)
  }

  /** What is still to be written, behind a word that has begun or behind nothing. */
  function Behind(parts: seq<Text>): Text {
    if parts == [] then [] else [SPACE] + Spread(AllCapitalised(parts))
  }

  /** What is still to be written of a stretch in which one is already. */
  function Going(s: Text): Text {
    var parts := PartsOf(s);
    if s == [] || IsMark(s[0]) || parts == [] then Behind(parts) else parts[0] + Behind(parts[1..])
  }

  lemma SpreadHead(parts: seq<Text>, rest: seq<Text>)
    requires parts != [] && rest == parts[1..]
    ensures Spread(AllCapitalised(parts)) == Capitalised(parts[0]) + Behind(rest)
  {
    var caps, tail := AllCapitalised(parts), AllCapitalised(rest);
    assert caps == [Capitalised(parts[0])] + tail;
    if tail != [] {
      SpreadCons(caps[0], tail);
      assert caps[0] + [SPACE] + Spread(tail) == caps[0] + ([SPACE] + Spread(tail));
    } else {
      assert caps[0] + [] == caps[0];
    }
  }

  lemma {:induction false} WordsArePartsWritten(s: Text)
    ensures Words(s, Before) == Spread(AllCapitalised(PartsOf(s)))
    ensures Words(s, Between) == Behind(PartsOf(s))
    ensures Words(s, Inside) == Going(s)
  {
    if s != [] {
      WordsArePartsWritten(s[1..]);
      if !IsMark(s[0]) {
        if |s| == 1 || IsMark(s[1]) { ShortPart(s); } else { LongPart(s); }
      }
    }
  }

  /** The first part of a text that begins with one. */
  ghost predicate Begins(s: Text) {
    && s != [] && PartsOf(s) != []
    && Going(s) == [s[0]] + Going(s[1..])
    && Spread(AllCapitalised(PartsOf(s))) == [Upper(s[0])] + Going(s[1..])
  }

  lemma ShortPart(s: Text)
    requires s != [] && !IsMark(s[0]) && (|s| == 1 || IsMark(s[1]))
    ensures Begins(s)
  {
    var parts, rest := PartsOf(s), PartsOf(s[1..]);
    assert parts == [[s[0]]] + rest && parts[1..] == rest;
    SpreadHead(parts, rest);
    assert Capitalised([s[0]]) == [Upper(s[0])];
    assert Going(s[1..]) == Behind(rest);
  }

  lemma LongPart(s: Text)
    requires |s| > 1 && !IsMark(s[0]) && !IsMark(s[1])
    ensures Begins(s)
  {
    var parts, rest := PartsOf(s), PartsOf(s[1..]);
    var first := [s[0]] + rest[0];
    assert parts == [first] + rest[1..] && parts[1..] == rest[1..];
    SpreadHead(parts, rest[1..]);
    assert first[1..] == rest[0];
    assert Capitalised(first) == [Upper(s[0])] + rest[0];
    assert Going(s[1..]) == rest[0] + Behind(rest[1..]);
    Regroup([Upper(s[0])], rest[0], Behind(rest[1..]));
    Regroup([s[0]], rest[0], Behind(rest[1..]));
  }

  lemma Regroup(a: Text, b: Text, c: Text)
    ensures a + b + c == a + (b + c)
  {
  }

  /**
   The label derived from an id: its parts between dots, underscores and hyphens, each with a capital first letter, with
   single spaces between them; an id without parts is its own label.
   */
  lemma DerivedLabelIs(id: Text)
    ensures DerivedLabel(id) == if PartsOf(id) == [] then id else Spread(AllCapitalised(PartsOf(id)))
  {
    WordsArePartsWritten(id);
    SpreadIsSomething(AllCapitalised(PartsOf(id)));
  }
}
