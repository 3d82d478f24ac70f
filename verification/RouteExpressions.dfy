/**
 The compilation of route patterns to regular expressions (apps/desktop/src/browser-network.ts), against the meaning
 of both. Text is a sequence of code points, as a regular expression with the u flag reads it; case folding is a
 parameter.
 */
module RouteExpressions {
  import opened Wrappers

  type Point = p: int | 0 <= p < 0x110000

  type Text = seq<Point>

  type Folding = Point -> Point

  const STAR: Point := 0x2A
  const DOT: Point := 0x2E
  const CARET: Point := 0x5E
  const DOLLAR: Point := 0x24
  const BACKSLASH: Point := 0x5C

  /** The characters that the compilation escapes: \ ^ $ + ? . ( ) | [ ] { } */
  predicate IsMeta(c: Point) {
    || c == BACKSLASH || c == CARET || c == DOLLAR || c == 0x2B || c == 0x3F || c == DOT || c == 0x28 || c == 0x29
    || c == 0x7C || c == 0x5B || c == 0x5D || c == 0x7B || c == 0x7D
  }

  predicate IsTerminator(c: Point) {
    c == 0x0A || c == 0x0D || c == 0x2028 || c == 0x2029
  }

  // ---- the compilation: two replacements and two anchors ----

  function Escaped(pattern: Text): Text {
    if pattern == [] then []
    else (if IsMeta(pattern[0]) then [BACKSLASH, pattern[0]] else [pattern[0]]) + Escaped(pattern[1..])
  }

  function Starred(source: Text): Text {
    if source == [] then []
    else (if source[0] == STAR then [DOT, STAR] else [source[0]]) + Starred(source[1..])
  }

  function Source(pattern: Text): Text {
    [CARET] + Starred(Escaped(pattern)) + [DOLLAR]
  }

  // ---- regular expressions: the part of the grammar that the compilation uses ----

  /** The syntax characters of ECMAScript, which stand for themselves only when escaped. */
  predicate IsSyntax(c: Point) {
    exists i :: 0 <= i < |SYNTAX| && SYNTAX[i] as int == c
  }

  const SYNTAX := "^$\\.*+?()[]{}|"

  datatype Atom = Char(c: Point) | Any

  datatype Term = Start | End | One(atom: Atom) | Many(atom: Atom)

  function Cons(t: Term, rest: Option<seq<Term>>): Option<seq<Term>> {
    if rest.None? then None else Some([t] + rest.value)
  }

  /** The terms of an expression; nothing when a character stands where the grammar has no place for it. */
  function Parse(source: Text): Option<seq<Term>>
    decreases |source|, 0
  {
    if source == [] then Some([])
    else if source[0] == CARET then Cons(Start, Parse(source[1..]))
    else if source[0] == DOLLAR then Cons(End, Parse(source[1..]))
    else if source[0] == BACKSLASH then
      if |source| > 1 && IsSyntax(source[1]) then Quantified(Char(source[1]), source[2..]) else None
    else if source[0] == DOT then Quantified(Any, source[1..])
    else if IsSyntax(source[0]) then None
    else Quantified(Char(source[0]), source[1..])
  }

  function Quantified(atom: Atom, rest: Text): Option<seq<Term>>
    decreases |rest|, 1
  {
    if rest != [] && rest[0] == STAR then Cons(Many(atom), Parse(rest[1..])) else Cons(One(atom), Parse(rest))
  }

  predicate Takes(fold: Folding, atom: Atom, c: Point) {
    match atom
    case Char(d) => fold(c) == fold(d)
    case Any => !IsTerminator(c)
  }

  /** Some match of the terms begins at a place. */
  predicate MatchAt(fold: Folding, terms: seq<Term>, input: Text, i: nat)
    requires i <= |input|
    decreases |terms|, |input| - i
  {
    if terms == [] then true else
    match terms[0]
    case Start => i == 0 && MatchAt(fold, terms[1..], input, i)
    case End => i == |input| && MatchAt(fold, terms[1..], input, i)
    case One(atom) => i < |input| && Takes(fold, atom, input[i]) && MatchAt(fold, terms[1..], input, i + 1)
    case Many(atom) =>
      || MatchAt(fold, terms[1..], input, i)
      || (i < |input| && Takes(fold, atom, input[i]) && MatchAt(fold, terms, input, i + 1))
  }

  /** RegExp.prototype.test. */
  predicate Test(fold: Folding, terms: seq<Term>, input: Text) {
    exists i: nat :: i <= |input| && MatchAt(fold, terms, input, i)
  }

  // ---- globs ----

  predicate OneLine(input: Text, i: nat, k: nat)
    requires i <= k <= |input|
  {
    forall j :: i <= j < k ==> !IsTerminator(input[j])
  }

  /** A star stands for any stretch of text without a line terminator, every other character for itself. */
  ghost predicate GlobAt(fold: Folding, pattern: Text, input: Text, i: nat)
    requires i <= |input|
  {
    if pattern == [] then i == |input|
    else if pattern[0] == STAR then
      exists k :: i <= k <= |input| && OneLine(input, i, k) && GlobAt(fold, pattern[1..], input, k)
    else i < |input| && fold(input[i]) == fold(pattern[0]) && GlobAt(fold, pattern[1..], input, i + 1)
  }

  /** The textbook glob: a star stands for any text. */
  ghost predicate PlainGlobAt(fold: Folding, pattern: Text, input: Text, i: nat)
    requires i <= |input|
  {
    if pattern == [] then i == |input|
    else if pattern[0] == STAR then exists k :: i <= k <= |input| && PlainGlobAt(fold, pattern[1..], input, k)
    else i < |input| && fold(input[i]) == fold(pattern[0]) && PlainGlobAt(fold, pattern[1..], input, i + 1)
  }

  ghost predicate Glob(fold: Folding, pattern: Text, url: Text) {
    GlobAt(fold, pattern, url, 0)
  }

  // ---- parsing the compiled source ----

  /** What a pattern should become. */
  function Terms(pattern: Text): seq<Term> {
    if pattern == [] then []
    else [if pattern[0] == STAR then Many(Any) else One(Char(pattern[0]))] + Terms(pattern[1..])
  }

  /** The compiled source without the leading anchor, character by character. */
  function Body(pattern: Text): Text {
    if pattern == [] then [DOLLAR]
    else
      (if pattern[0] == STAR then [DOT, STAR] else if IsMeta(pattern[0]) then [BACKSLASH, pattern[0]] else [pattern[0]])
      + Body(pattern[1..])
  }

  lemma {:induction false} BodyIsCompiled(pattern: Text)
    ensures Starred(Escaped(pattern)) + [DOLLAR] == Body(pattern)
  {
    if pattern != [] {
      var c, rest := pattern[0], Escaped(pattern[1..]);
      BodyIsCompiled(pattern[1..]);
      if IsMeta(c) {
        StarredPair(c, rest);
        Shift([BACKSLASH, c], Starred(rest));
      } else {
        assert ([c] + rest)[1..] == rest;
        Shift(if c == STAR then [DOT, STAR] else [c], Starred(rest));
      }
    }
  }

  lemma StarredPair(c: Point, rest: Text)
    requires c != STAR
    ensures Starred([BACKSLASH, c] + rest) == [BACKSLASH, c] + Starred(rest)
  {
    assert ([BACKSLASH, c] + rest)[1..] == [c] + rest && ([c] + rest)[1..] == rest;
    assert Starred([c] + rest) == [c] + Starred(rest);
  }

  lemma Shift(a: Text, b: Text)
    ensures a + b + [DOLLAR] == a + (b + [DOLLAR])
  {
  }

  lemma BodyIsNoQuantifier(pattern: Text)
    ensures Body(pattern) != [] && Body(pattern)[0] != STAR
  {
  }

  lemma {:induction false} BodyParses(pattern: Text)
    ensures Parse(Body(pattern)) == Some(Terms(pattern) + [End])
  {
    if pattern == [] {
      assert [DOLLAR][1..] == [] && Parse([]) == Some([]) && [End] + [] == [] + [End];
    } else {
      var c, rest := pattern[0], Body(pattern[1..]);
      BodyParses(pattern[1..]);
      BodyIsNoQuantifier(pattern[1..]);
      StepParses(c, rest, Terms(pattern[1..]) + [End]);
      assert Terms(pattern) + [End] == [Terms(pattern)[0]] + (Terms(pattern[1..]) + [End]);
    }
  }

  /** What is escaped is just what the grammar asks to escape, but for the star. */
  lemma EscapesTheSyntax(c: Point)
    ensures IsSyntax(c) <==> IsMeta(c) || c == STAR
  {
    if IsMeta(c) || c == STAR {
      var i :=
        if c == CARET then 0 else if c == DOLLAR then 1 else if c == BACKSLASH then 2 else if c == DOT then 3
        else if c == STAR then 4 else if c == 0x2B then 5 else if c == 0x3F then 6 else if c == 0x28 then 7
        else if c == 0x29 then 8 else if c == 0x5B then 9 else if c == 0x5D then 10 else if c == 0x7B then 11
        else if c == 0x7D then 12 else 13;
      assert SYNTAX[i] as int == c;
    }
  }

  lemma StepParses(c: Point, rest: Text, terms: seq<Term>)
    requires Parse(rest) == Some(terms) && rest != [] && rest[0] != STAR
    ensures c == STAR ==> Parse([DOT, STAR] + rest) == Some([Many(Any)] + terms)
    ensures c != STAR && IsMeta(c) ==> Parse([BACKSLASH, c] + rest) == Some([One(Char(c))] + terms)
    ensures c != STAR && !IsMeta(c) ==> Parse([c] + rest) == Some([One(Char(c))] + terms)
  {
    EscapesTheSyntax(c);
    assert ([c] + rest)[1..] == rest;
    assert ([BACKSLASH, c] + rest)[2..] == rest;
    assert ([DOT, STAR] + rest)[1..] == [STAR] + rest && ([STAR] + rest)[1..] == rest;
  }

  /** Every pattern compiles, to its own characters and stars between the anchors. */
  lemma EveryPatternCompiles(pattern: Text)
    ensures Parse(Source(pattern)) == Some([Start] + Terms(pattern) + [End])
  {
    BodyIsCompiled(pattern);
    BodyParses(pattern);
    assert Source(pattern) == [CARET] + Body(pattern);
    assert ([CARET] + Body(pattern))[1..] == Body(pattern);
    assert [Start] + (Terms(pattern) + [End]) == [Start] + Terms(pattern) + [End];
  }

  // ---- matching ----

  lemma {:induction false} ManyTakesStretches(fold: Folding, rest: seq<Term>, input: Text, i: nat)
    requires i <= |input|
    ensures MatchAt(fold, [Many(Any)] + rest, input, i) <==>
            exists k :: i <= k <= |input| && OneLine(input, i, k) && MatchAt(fold, rest, input, k)
    decreases |input| - i
  {
    var terms := [Many(Any)] + rest;
    assert terms[1..] == rest;
    if i < |input| {
      ManyTakesStretches(fold, rest, input, i + 1);
      if MatchAt(fold, terms, input, i) && !MatchAt(fold, rest, input, i) {
        var k :| i + 1 <= k <= |input| && OneLine(input, i + 1, k) && MatchAt(fold, rest, input, k);
        assert OneLine(input, i, k);
      }
      if k :| i <= k <= |input| && OneLine(input, i, k) && MatchAt(fold, rest, input, k) {
        if k > i {
          assert OneLine(input, i + 1, k);
          assert !IsTerminator(input[i]);
        }
      }
    }
    if MatchAt(fold, rest, input, i) { assert OneLine(input, i, i); }
  }

  lemma {:induction false} TermsMatchLikeGlobs(fold: Folding, pattern: Text, input: Text, i: nat)
    requires i <= |input|
    ensures MatchAt(fold, Terms(pattern) + [End], input, i) <==> GlobAt(fold, pattern, input, i)
    decreases |pattern|
  {
    if pattern == [] {
      assert Terms(pattern) + [End] == [End];
      assert MatchAt(fold, [], input, i);
    } else {
      var rest := Terms(pattern[1..]) + [End];
      assert Terms(pattern) + [End] == [Terms(pattern)[0]] + rest;
      assert ([Terms(pattern)[0]] + rest)[1..] == rest;
      forall k: nat | k <= |input|
        ensures MatchAt(fold, rest, input, k) <==> GlobAt(fold, pattern[1..], input, k)
      {
        TermsMatchLikeGlobs(fold, pattern[1..], input, k);
      }
      if pattern[0] == STAR { ManyTakesStretches(fold, rest, input, i); }
    }
  }

  /**
   Compilation preserves meaning: for every pattern the compiled expression exists, and it finds a match in a URL
   exactly when the glob matches all of it.
   */
  lemma CompiledPatternIsTheGlob(fold: Folding, pattern: Text, url: Text)
    ensures Parse(Source(pattern)).Some?
    ensures Test(fold, Parse(Source(pattern)).value, url) <==> Glob(fold, pattern, url)
  {
    EveryPatternCompiles(pattern);
    var rest := Terms(pattern) + [End];
    var terms := [Start] + Terms(pattern) + [End];
    assert terms == [Start] + rest && terms[1..] == rest;
    TermsMatchLikeGlobs(fold, pattern, url, 0);
    assert MatchAt(fold, terms, url, 0) <==> MatchAt(fold, rest, url, 0);
  }

  lemma {:induction false} OneLineGlobsArePlain(fold: Folding, pattern: Text, url: Text, i: nat)
    requires i <= |url| && OneLine(url, 0, |url|)
    ensures GlobAt(fold, pattern, url, i) <==> PlainGlobAt(fold, pattern, url, i)
    decreases |pattern|
  {
    if pattern != [] {
      var rest := pattern[1..];
      if pattern[0] != STAR {
        if i < |url| { OneLineGlobsArePlain(fold, rest, url, i + 1); }
      } else {
        forall k: nat | k <= |url| ensures GlobAt(fold, rest, url, k) <==> PlainGlobAt(fold, rest, url, k) {
          OneLineGlobsArePlain(fold, rest, url, k);
        }
        forall k | i <= k <= |url| ensures OneLine(url, i, k) { }
      }
    }
  }

  /** On a URL without line terminators the expression is the textbook glob. */
  lemma CompiledPatternIsThePlainGlob(fold: Folding, pattern: Text, url: Text)
    requires OneLine(url, 0, |url|)
    ensures Parse(Source(pattern)).Some?
    ensures Test(fold, Parse(Source(pattern)).value, url) <==> PlainGlobAt(fold, pattern, url, 0)
  {
    CompiledPatternIsTheGlob(fold, pattern, url);
    OneLineGlobsArePlain(fold, pattern, url, 0);
  }

  /** The compiled expression and the textbook glob say the same of a URL. */
  ghost predicate ReadsAsPlain(fold: Folding, pattern: Text, url: Text) {
    Parse(Source(pattern)).Some?
    && (Test(fold, Parse(Source(pattern)).value, url) <==> PlainGlobAt(fold, pattern, url, 0))
  }

  /** A lone star takes every URL as a textbook glob, but as an expression only one without line terminators. */
  lemma StarStopsAtALineEnd(fold: Folding, star: Text, url: Text)
    requires star == [STAR]
    ensures PlainGlobAt(fold, star, url, 0) && Parse(Source(star)).Some?
    ensures Test(fold, Parse(Source(star)).value, url) <==> OneLine(url, 0, |url|)
  {
    CompiledPatternIsTheGlob(fold, star, url);
    assert star[1..] == [];
    assert PlainGlobAt(fold, star[1..], url, |url|);
    assert GlobAt(fold, star[1..], url, |url|);
    if GlobAt(fold, star, url, 0) {
      var k :| 0 <= k <= |url| && OneLine(url, 0, k) && GlobAt(fold, star[1..], url, k);
      assert k == |url|;
    }
  }

  /** A star takes every character but the four line terminators: line feed, carriage return, and U+2028 and U+2029. */
  lemma StarTakesAllButLineEnds(fold: Folding, star: Text, c: Point)
    requires star == [STAR]
    ensures Parse(Source(star)).Some?
    ensures Test(fold, Parse(Source(star)).value, [c]) <==> c !in {10, 13, 8232, 8233}
  {
    StarStopsAtALineEnd(fold, star, [c]);
    assert [c][0] == c;
  }

  /** The expression is the textbook glob for every pattern exactly when the URL has no line terminator. */
  lemma PlainForEveryPatternExactlyOnOneLine(fold: Folding, url: Text)
    ensures (forall pattern :: ReadsAsPlain(fold, pattern, url)) <==> OneLine(url, 0, |url|)
  {
    var star := [STAR];
    StarStopsAtALineEnd(fold, star, url);
    if OneLine(url, 0, |url|) {
      forall pattern ensures ReadsAsPlain(fold, pattern, url) { CompiledPatternIsThePlainGlob(fold, pattern, url); }
    } else {
      assert !ReadsAsPlain(fold, star, url);
    }
  }
}
