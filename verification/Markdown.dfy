/**
 The splitting of a message into prose and fenced code (apps/ios/Sources/T4Markdown.swift). Text is a
 sequence of scalar values.
 */
module Markdown {
  import opened Wrappers
  import opened Texts

  datatype Block = Prose(text: string) | Code(language: string, code: string)

  const NEWLINES: set<char> := {'\n', '\r', '\U{B}', '\U{C}', '\U{85}', '\U{2028}', '\U{2029}'}

  const WHITESPACES: set<char> :=
    {'\t', ' ', '\U{A0}', '\U{1680}', '\U{2000}', '\U{2001}', '\U{2002}', '\U{2003}', '\U{2004}', '\U{2005}', '\U{2006}',
     '\U{2007}', '\U{2008}', '\U{2009}', '\U{200A}', '\U{202F}', '\U{205F}', '\U{3000}'}

  function TrimStart(s: string, chars: set<char>): string {
    if s != "" && s[0] in chars then TrimStart(s[1..], chars) else s
  }

  function TrimEnd(s: string, chars: set<char>): string {
    if s != "" && s[|s| - 1] in chars then TrimEnd(s[..|s| - 1], chars) else s
  }

  function Trim(s: string, chars: set<char>): string {
    TrimEnd(TrimStart(s, chars), chars)
  }

  predicate IsFence(line: string) {
    |line| >= 3 && line[..3] == "```"
  }

  function Language(opener: string): string
    requires IsFence(opener)
  {
    Trim(opener[3..], WHITESPACES)
  }

  function JoinLines(lines: seq<string>): string {
    if lines == [] then "" else Join(lines, '\n')
  }

  // ---- the scan, line by line ----

  datatype Fence = Fence(language: string, lines: seq<string>)

  /** The finished blocks, the prose gathered so far and the fence that is open. */
  datatype Scan = Scan(out: seq<Block>, prose: string, fence: Option<Fence>)

  const START := Scan([], "", None)

  /** Prose is flushed when it holds more than newlines; otherwise it is kept. */
  function Flush(s: Scan): Scan {
    var pending := Trim(s.prose, NEWLINES);
    if pending == "" then s else s.(out := s.out + [Prose(pending)], prose := "")
  }

  function Emit(s: Scan, fence: Fence, closed: bool): Scan {
    var flushed, code := Flush(s), JoinLines(fence.lines);
    flushed.(out := if closed || code != "" then flushed.out + [Code(fence.language, code)] else flushed.out,
             fence := None)
  }

  function Step(s: Scan, line: string): Scan {
    match s.fence
    case None =>
      if IsFence(line) then s.(fence := Some(Fence(Language(line), []))) else s.(prose := s.prose + line + "\n")
    case Some(fence) =>
      if IsFence(line) then Emit(s, fence, true)
      else s.(fence := Some(fence.(lines := fence.lines + [line])))
  }

  function Fold(s: Scan, lines: seq<string>): Scan
    decreases |lines|
  {
    if lines == [] then s else Fold(Step(s, lines[0]), lines[1..])
  }

  /** A fence that is still open at the end of the text. */
  function Settle(s: Scan): Scan {
    if s.fence.None? then s else Emit(s, s.fence.value, false)
  }

  function Finish(s: Scan): seq<Block> {
    Flush(Settle(s)).out
  }

  function Blocks(text: string): seq<Block> {
    Finish(Fold(START, Split(text, '\n')))
  }

  /** Pending prose is appended as a block unless nothing but newlines is pending. */
  method FlushProse(out: seq<Block>, prose: string) returns (blocks: seq<Block>, rest: string)
    ensures Scan(blocks, rest, None) == Flush(Scan(out, prose, None))
  {
    blocks, rest := out, prose;
    var pending := Trim(prose, NEWLINES);
    if pending != "" { blocks, rest := out + [Prose(pending)], ""; }
  }

  /** What follows the inner loop: the pending prose, then the code unless the fence was left open and empty. */
  method EmitCode(out: seq<Block>, prose: string, fence: Fence, closed: bool) returns (blocks: seq<Block>, rest: string)
    ensures Scan(blocks, rest, None) == Emit(Scan(out, prose, Some(fence)), fence, closed)
  {
    blocks, rest := FlushProse(out, prose);
    var code := JoinLines(fence.lines);
    if closed || code != "" { blocks := blocks + [Code(fence.language, code)]; }
  }

  lemma {:induction false} FoldAppend(s: Scan, first: seq<string>, rest: seq<string>)
    ensures Fold(s, first + rest) == Fold(Fold(s, first), rest)
    decreases |first|
  {
    if first == [] {
      assert first + rest == rest;
    } else {
      assert (first + rest)[1..] == first[1..] + rest;
      FoldAppend(Step(s, first[0]), first[1..], rest);
    }
  }

  lemma FoldNext(lines: seq<string>, i: nat)
    requires i < |lines|
    ensures Fold(START, lines[..i + 1]) == Step(Fold(START, lines[..i]), lines[i])
  {
    var before := Fold(START, lines[..i]);
    assert lines[..i + 1] == lines[..i] + [lines[i]];
    FoldAppend(START, lines[..i], [lines[i]]);
    assert Fold(Step(before, lines[i]), []) == Step(before, lines[i]);
  }

  /** blocks(in:) with its two nested loops. */
  method BlocksIn(text: string) returns (out: seq<Block>)
    ensures out == Blocks(text)
  {
    out := [];
    var prose := "";
    var lines := Split(text, '\n');
    var index := 0;
    ghost var scan := START;
    while index < |lines|
      invariant 0 <= index <= |lines| && scan == Fold(START, lines[..index])
      invariant Scan(out, prose, None) == Settle(scan) && (index < |lines| ==> scan.fence.None?)
    {
      var line := lines[index];
      FoldNext(lines, index);
      scan := Step(scan, line);
      index := index + 1;
      if IsFence(line) {
        var language := Trim(line[3..], WHITESPACES);
        var codeLines: seq<string> := [];
        var closed := false;
        while index < |lines| && !closed
          invariant 0 <= index <= |lines| && scan == Fold(START, lines[..index])
          invariant !closed ==> scan == Scan(out, prose, Some(Fence(language, codeLines)))
          invariant closed ==> scan == Emit(Scan(out, prose, Some(Fence(language, codeLines))), Fence(language, codeLines), true)
        {
          var codeLine := lines[index];
          FoldNext(lines, index);
          scan := Step(scan, codeLine);
          index := index + 1;
          if IsFence(codeLine) { closed := true; } else { codeLines := codeLines + [codeLine]; }
        }
        out, prose := EmitCode(out, prose, Fence(language, codeLines), closed);
      } else {
        prose := prose + line + "\n";
      }
    }
    assert lines[..index] == lines;
    out, prose := FlushProse(out, prose);
  }
}
