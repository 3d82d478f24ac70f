/** What the Markdown splitter promises: it is safe to run on a text that is still growing, and it loses no line. */
module MarkdownTheorems {
  import opened Wrappers
  import opened Texts
  import opened Markdown

  // ---- streaming ----

  function AllButLast(blocks: seq<Block>): seq<Block> {
    if blocks == [] then [] else blocks[..|blocks| - 1]
  }

  /** The blocks that no further line can change. */
  function Committed(s: Scan): seq<Block> {
    if s.fence.None? then s.out else Flush(s).out
  }

  lemma CommittedGrows(s: Scan, line: string)
    ensures Committed(s) <= Committed(Step(s, line))
  {
  }

  lemma {:induction false} FoldCommits(s: Scan, lines: seq<string>)
    ensures Committed(s) <= Finish(Fold(s, lines))
    decreases |lines|
  {
    if lines != [] {
      CommittedGrows(s, lines[0]);
      FoldCommits(Step(s, lines[0]), lines[1..]);
    }
  }

  /** After a flush the prose holds at most newlines, so a second flush adds nothing. */
  lemma FlushTwice(s: Scan)
    ensures Flush(Flush(s)).out == Flush(s).out
  {
    assert Trim("", NEWLINES) == "";
  }

  /** The last line of a text can only matter to its last block. */
  lemma LastLineTouchesLastBlock(s: Scan, line: string)
    ensures AllButLast(Finish(Step(s, line))) <= Committed(s)
  {
    FlushTwice(s);
    assert JoinLines([]) == "";
  }

  /** Two lists of lines, the second going on in the last line of the first. */
  function Continued(a: seq<string>, b: seq<string>): seq<string>
    requires a != [] && b != []
  {
    if |a| == 1 then [a[0] + b[0]] + b[1..] else [a[0]] + Continued(a[1..], b)
  }

  lemma {:induction false} ContinuedLast(a: seq<string>, b: seq<string>)
    requires a != [] && b != []
    ensures Continued(a, b) == a[..|a| - 1] + ([a[|a| - 1] + b[0]] + b[1..])
  {
    if |a| > 1 {
      ContinuedLast(a[1..], b);
      assert a[..|a| - 1] == [a[0]] + a[1..][..|a| - 2];
    }
  }

  /** One character more in front of a list of lines. */
  function Push(c: char, lines: seq<string>): seq<string>
    requires lines != []
  {
    if c == '\n' then [""] + lines else [[c] + lines[0]] + lines[1..]
  }

  lemma PushContinued(c: char, a: seq<string>, b: seq<string>)
    requires a != [] && b != []
    ensures Push(c, Continued(a, b)) == Continued(Push(c, a), b)
  {
    if c == '\n' {
      assert ([""] + a)[1..] == a;
    } else {
      var first := [c] + a[0];
      assert ([first] + a[1..])[1..] == a[1..];
      assert [c] + (a[0] + b[0]) == first + b[0];
    }
  }

  lemma SplitNewline(s: string, t: string)
    requires t == ['\n'] + s
    ensures Split(t, '\n') == [""] + Split(s, '\n')
  {
    assert IndexOf(t, '\n') == 0 && t[..0] == "" && t[1..] == s;
  }

  lemma SplitLetter(c: char, s: string, t: string)
    requires t == [c] + s && c != '\n'
    ensures Split(t, '\n') == [[c] + Split(s, '\n')[0]] + Split(s, '\n')[1..]
  {
    var i := IndexOf(s, '\n');
    assert t[1..] == s;
    assert IndexOf(t, '\n') == i + 1;
    if i < |s| {
      assert t[..i + 1] == [c] + s[..i] && t[i + 2..] == s[i + 1..];
    }
  }

  /** Splitting, character by character. */
  lemma SplitPush(c: char, s: string)
    ensures Split([c] + s, '\n') == Push(c, Split(s, '\n'))
  {
    var t := [c] + s;
    if c == '\n' { SplitNewline(s, t); } else { SplitLetter(c, s, t); }
  }

  /** More text goes on where the last line stopped. */
  lemma {:induction false} SplitContinues(p: string, s: string)
    ensures Split(p + s, '\n') == Continued(Split(p, '\n'), Split(s, '\n'))
  {
    if p == "" {
      assert p + s == s && "" + Split(s, '\n')[0] == Split(s, '\n')[0];
    } else {
      assert p == [p[0]] + p[1..] && p + s == [p[0]] + (p[1..] + s);
      SplitPush(p[0], p[1..]);
      SplitPush(p[0], p[1..] + s);
      SplitContinues(p[1..], s);
      PushContinued(p[0], Split(p[1..], '\n'), Split(s, '\n'));
    }
  }

  /** Streaming-safe: all blocks of a text but the last are the first blocks of every longer text. */
  lemma StreamingSafe(p: string, s: string)
    ensures AllButLast(Blocks(p)) <= Blocks(p + s)
  {
    var a, b := Split(p, '\n'), Split(s, '\n');
    var n := |a| - 1;
    var done := Fold(START, a[..n]);
    SplitContinues(p, s);
    ContinuedLast(a, b);
    assert a == a[..n] + [a[n]];
    FoldAppend(START, a[..n], [a[n]]);
    assert Fold(done, [a[n]]) == Fold(Step(done, a[n]), []);
    LastLineTouchesLastBlock(done, a[n]);
    var more := [a[n] + b[0]] + b[1..];
    FoldAppend(START, a[..n], more);
    FoldCommits(done, more);
  }
}
