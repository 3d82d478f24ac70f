/** Blocks written down as a message and read back, and what a code block keeps of its lines. */
module MarkdownWriting {
  import opened Wrappers
  import opened Texts
  import opened Markdown
  import opened MarkdownLayout

  predicate Unbroken(lines: seq<string>) {
    forall i :: 0 <= i < |lines| ==> '\n' !in lines[i]
  }

  // ---- lines and code ----

  lemma {:induction false} SplitJoin(lines: seq<string>)
    requires lines != [] && Unbroken(lines)
    ensures Split(Join(lines, '\n'), '\n') == lines
  {
    if |lines| == 1 {
      NoSeparator(lines[0], '\n');
    } else {
      SplitJoin(lines[1..]);
      SplitAt(lines[0], '\n', Join(lines[1..], '\n'));
      assert lines == [lines[0]] + lines[1..];
    }
  }

  /** The code of a block is its lines: splitting it gives them back, each in its place. */
  lemma CodeKeepsItsLines(body: seq<string>)
    requires Unbroken(body)
    ensures Split(JoinLines(body), '\n') == if body == [] then [""] else body
  {
    if body == [] { NoSeparator("", '\n'); } else { SplitJoin(body); }
  }

  /** The language is what stands behind the three backticks, without the white space around it. */
  lemma LanguageStandsBehindTheFence(opener: string) returns (a: string, b: string)
    requires IsFence(opener)
    ensures var language := Language(opener);
            && opener == "```" + a + language + b && All(a, WHITESPACES) && All(b, WHITESPACES)
            && (language != "" ==> language[0] !in WHITESPACES && language[|language| - 1] !in WHITESPACES)
  {
    a, b := TrimTakesTheEnds(opener[3..], WHITESPACES);
    assert opener == opener[..3] + opener[3..];
  }

  // ---- writing ----

  predicate Edged(s: string, chars: set<char>) {
    s != "" ==> s[0] !in chars && s[|s| - 1] !in chars
  }

  /** A block that can stand in a message: no fence inside, and nothing at its ends that would be trimmed. */
  predicate Writable(block: Block) {
    match block
    case Prose(text) => text != "" && Edged(text, NEWLINES) && NoFence(Split(text, '\n'))
    case Code(language, code) => '\n' !in language && Edged(language, WHITESPACES) && NoFence(BodyOf(code))
  }

  function BodyOf(code: string): seq<string> {
    if code == "" then [] else Split(code, '\n')
  }

  function Written(block: Block): Segment {
    match block
    case Prose(text) => Text(Split(text, '\n'))
    case Code(language, code) => Fenced("```" + language, BodyOf(code), Some("```"))
  }

  function AllWritten(blocks: seq<Block>): seq<Segment> {
    if blocks == [] then [] else [Written(blocks[0])] + AllWritten(blocks[1..])
  }

  /** The blocks as a message: prose as it is, code between fences, everything on lines of its own. */
  function Message(blocks: seq<Block>): string {
    JoinLines(Flatten(AllWritten(blocks)))
  }

  /** Every block can stand in a message, and no prose follows prose. */
  predicate AllWritable(blocks: seq<Block>) {
    && (forall i :: 0 <= i < |blocks| ==> Writable(blocks[i]))
    && forall i :: 0 < i < |blocks| ==> !(blocks[i - 1].Prose? && blocks[i].Prose?)
  }

  // ---- reading back ----

  lemma {:induction false} EndedIsJoined(lines: seq<string>)
    requires lines != []
    ensures Ended(lines) == Join(lines, '\n') + "\n"
  {
    if |lines| > 1 {
      EndedIsJoined(lines[1..]);
    } else {
      assert Ended(lines[1..]) == "";
    }
  }

  lemma TrimKeepsEdged(s: string, chars: set<char>)
    requires Edged(s, chars)
    ensures Trim(s, chars) == s
  {
  }

  lemma TrimDropsTheLast(s: string)
    requires s != "" && Edged(s, NEWLINES)
    ensures Trim(s + "\n", NEWLINES) == s
  {
    var t := s + "\n";
    assert t[0] == s[0] && t[|t| - 1] == '\n' && '\n' in NEWLINES;
    assert t[..|t| - 1] == s;
    assert TrimEnd(s, NEWLINES) == s;
  }

  /** A written block shows as itself. */
  lemma WrittenShows(block: Block)
    requires Writable(block)
    ensures WellFormed(Written(block)) && Shown(Written(block)) == [block]
  {
    match block
    case Prose(text) =>
      JoinSplit(text, '\n');
      EndedIsJoined(Split(text, '\n'));
      TrimDropsTheLast(text);
    case Code(language, code) =>
      var opener := "```" + language;
      assert opener[..3] == "```" && opener[3..] == language;
      assert IsFence("```") by { assert "```"[..3] == "```"; }
      TrimKeepsEdged(language, WHITESPACES);
      if code != "" { JoinSplit(code, '\n'); }
  }

  lemma WrittenIsUnbroken(block: Block)
    requires Writable(block)
    ensures LinesOf(Written(block)) != [] && Unbroken(LinesOf(Written(block)))
  {
  }

  lemma {:induction false} AllWrittenShows(blocks: seq<Block>)
    requires AllWritable(blocks)
    ensures Layout(AllWritten(blocks)) && ShownAll(AllWritten(blocks)) == blocks
    ensures Unbroken(Flatten(AllWritten(blocks))) && (blocks != [] ==> Flatten(AllWritten(blocks)) != [])
    ensures blocks != [] ==> AllWritten(blocks) != [] && AllWritten(blocks)[0] == Written(blocks[0])
  {
    if blocks != [] {
      var rest := AllWritten(blocks[1..]);
      AllWrittenShows(blocks[1..]);
      WrittenShows(blocks[0]);
      WrittenIsUnbroken(blocks[0]);
      if |blocks| > 1 { assert !(blocks[0].Prose? && blocks[1].Prose?); }
      LayoutCons(Written(blocks[0]), rest);
      assert ([Written(blocks[0])] + rest)[1..] == rest;
    }
  }

  lemma EmptyMessage(text: string)
    requires text == ""
    ensures Blocks(text) == []
  {
    NoSeparator(text, '\n');
    var segments := [Text([text])];
    assert segments[1..] == [] && [text][1..] == [];
    assert Flatten(segments) == [text] + [];
    assert !IsFence(text) && WellFormed(segments[0]) && Layout(segments);
    BlocksShowTheLayout(text, segments);
    assert Ended([text]) == "\n";
    TrimNothing("\n", NEWLINES);
    assert ShownAll(segments) == Shown(segments[0]) + ShownAll(segments[1..]);
  }

  /** Round trip: every list of blocks that can stand in a message is read back from the message it is written as. */
  lemma WrittenBlocksAreReadBack(blocks: seq<Block>)
    requires AllWritable(blocks)
    ensures Blocks(Message(blocks)) == blocks
  {
    if blocks == [] {
      EmptyMessage(Message(blocks));
    } else {
      AllWrittenShows(blocks);
      SplitJoin(Flatten(AllWritten(blocks)));
      BlocksShowTheLayout(Message(blocks), AllWritten(blocks));
    }
  }
}
