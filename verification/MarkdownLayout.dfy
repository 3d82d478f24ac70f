/**
 The blocks of a message against a declarative reading of its lines: prose stretches and fences, in order, that
 together are exactly the lines of the text.
 */
module MarkdownLayout {
  import opened Wrappers
  import opened Texts
  import opened Markdown

  datatype Segment = Text(lines: seq<string>) | Fenced(opener: string, body: seq<string>, closer: Option<string>)

  function LinesOf(segment: Segment): seq<string> {
    match segment
    case Text(lines) => lines
    case Fenced(opener, body, closer) => [opener] + body + (if closer.Some? then [closer.value] else [])
  }

  function Flatten(segments: seq<Segment>): seq<string> {
    if segments == [] then [] else LinesOf(segments[0]) + Flatten(segments[1..])
  }

  predicate NoFence(lines: seq<string>) {
    forall i :: 0 <= i < |lines| ==> !IsFence(lines[i])
  }

  predicate WellFormed(segment: Segment) {
    match segment
    case Text(lines) => lines != [] && NoFence(lines)
    case Fenced(opener, body, closer) => IsFence(opener) && NoFence(body) && (closer.Some? ==> IsFence(closer.value))
  }

  /** What may follow a segment: no prose after prose, and nothing at all after a fence that was never closed. */
  predicate MayFollow(segment: Segment, next: Segment) {
    match segment
    case Text(_) => next.Fenced?
    case Fenced(_, _, closer) => closer.Some?
  }

  predicate Layout(segments: seq<Segment>) {
    && (forall i :: 0 <= i < |segments| ==> WellFormed(segments[i]))
    && (forall i :: 0 < i < |segments| ==> MayFollow(segments[i - 1], segments[i]))
  }

  // ---- what a layout shows ----

  function Ended(lines: seq<string>): string {
    if lines == [] then "" else lines[0] + "\n" + Ended(lines[1..])
  }

  function Paragraph(prose: string): seq<Block> {
    var text := Trim(prose, NEWLINES);
    if text == "" then [] else [Prose(text)]
  }

  function Shown(segment: Segment): seq<Block>
    requires WellFormed(segment)
  {
    match segment
    case Text(lines) => Paragraph(Ended(lines))
    case Fenced(opener, body, closer) =>
      var code := JoinLines(body);
      if closer.Some? || code != "" then [Code(Language(opener), code)] else []
  }

  function ShownAll(segments: seq<Segment>): seq<Block>
    requires Layout(segments)
  {
    if segments == [] then [] else Shown(segments[0]) + ShownAll(segments[1..])
  }

  // ---- trimming ----

  predicate All(s: string, chars: set<char>) {
    forall i :: 0 <= i < |s| ==> s[i] in chars
  }

  lemma {:induction false} TrimStartSkips(a: string, b: string, chars: set<char>)
    requires All(a, chars)
    ensures TrimStart(a + b, chars) == TrimStart(b, chars)
  {
    if a == "" {
      assert a + b == b;
    } else {
      assert (a + b)[1..] == a[1..] + b;
      TrimStartSkips(a[1..], b, chars);
    }
  }

  lemma {:induction false} TrimStartDrops(s: string, chars: set<char>) returns (a: string)
    ensures All(a, chars) && s == a + TrimStart(s, chars)
    ensures var t := TrimStart(s, chars); t != "" ==> t[0] !in chars
  {
    if s != "" && s[0] in chars {
      var rest := TrimStartDrops(s[1..], chars);
      a := [s[0]] + rest;
    } else {
      a := "";
    }
  }

  lemma {:induction false} TrimEndDrops(s: string, chars: set<char>) returns (b: string)
    ensures All(b, chars) && s == TrimEnd(s, chars) + b
    ensures var t := TrimEnd(s, chars); t != "" ==> t[|t| - 1] !in chars
  {
    if s != "" && s[|s| - 1] in chars {
      var rest := TrimEndDrops(s[..|s| - 1], chars);
      b := rest + [s[|s| - 1]];
    } else {
      b := "";
    }
  }

  /** Trimming takes characters of the set, all of those at the two ends, and nothing else. */
  lemma TrimTakesTheEnds(s: string, chars: set<char>) returns (a: string, b: string)
    ensures var t := Trim(s, chars);
            && s == a + t + b && All(a, chars) && All(b, chars)
            && (t != "" ==> t[0] !in chars && t[|t| - 1] !in chars)
  {
    a := TrimStartDrops(s, chars);
    b := TrimEndDrops(TrimStart(s, chars), chars);
  }

  lemma TrimNothing(s: string, chars: set<char>)
    ensures Trim(s, chars) == "" <==> All(s, chars)
  {
    var a, b := TrimTakesTheEnds(s, chars);
    if All(s, chars) {
      assert s + "" == s;
      TrimStartSkips(s, "", chars);
    }
  }

  // ---- the scan follows the layout ----

  /** The blocks still to come when some prose is pending. */
  function Pending(prose: string, segments: seq<Segment>): seq<Block>
    requires Layout(segments)
    decreases |segments|
  {
    if segments == [] then Paragraph(prose)
    else if segments[0].Text? then Pending(prose + Ended(segments[0].lines), segments[1..])
    else Paragraph(prose) + Shown(segments[0]) + Pending("", segments[1..])
  }

  lemma BlankProseIsHarmless(prose: string, more: string)
    requires All(prose, NEWLINES)
    ensures Paragraph(prose + more) == Paragraph(more)
  {
    TrimStartSkips(prose, more, NEWLINES);
  }

  /** Prose that was not flushed because it held newlines only changes nothing later. */
  lemma {:induction false} BlankPending(prose: string, more: string, segments: seq<Segment>)
    requires Layout(segments) && All(prose, NEWLINES)
    ensures Pending(prose + more, segments) == Pending(more, segments)
    decreases |segments|
  {
    BlankProseIsHarmless(prose, more);
    if segments != [] && segments[0].Text? {
      var ended := Ended(segments[0].lines);
      assert prose + more + ended == prose + (more + ended);
      BlankPending(prose, more + ended, segments[1..]);
    }
  }

  lemma {:induction false} FoldProse(s: Scan, lines: seq<string>, rest: seq<string>)
    requires s.fence.None? && NoFence(lines)
    ensures Fold(s, lines + rest) == Fold(s.(prose := s.prose + Ended(lines)), rest)
    decreases |lines|
  {
    if lines == [] {
      assert lines + rest == rest && s.prose + "" == s.prose;
    } else {
      assert (lines + rest)[1..] == lines[1..] + rest;
      FoldProse(Step(s, lines[0]), lines[1..], rest);
      assert s.prose + lines[0] + "\n" + Ended(lines[1..]) == s.prose + Ended(lines);
    }
  }

  lemma {:induction false} FoldBody(s: Scan, lines: seq<string>, rest: seq<string>)
    requires s.fence.Some? && NoFence(lines)
    ensures Fold(s, lines + rest) == Fold(s.(fence := Some(s.fence.value.(lines := s.fence.value.lines + lines))), rest)
    decreases |lines|
  {
    if lines == [] {
      assert lines + rest == rest && s.fence.value.lines + [] == s.fence.value.lines;
    } else {
      assert (lines + rest)[1..] == lines[1..] + rest;
      FoldBody(Step(s, lines[0]), lines[1..], rest);
      assert s.fence.value.lines + [lines[0]] + lines[1..] == s.fence.value.lines + lines;
    }
  }

  /** A fence is read as a whole: opener and body, then the closer if there is one. */
  lemma FoldFence(s: Scan, segment: Segment, rest: seq<string>)
    requires s.fence.None? && segment.Fenced? && WellFormed(segment)
    ensures segment.closer.Some? ==> Fold(s, LinesOf(segment) + rest) == Fold(Read(s, segment), rest)
    ensures segment.closer.None? ==> Fold(s, LinesOf(segment)) == Opened(s, segment)
  {
    if segment.closer.Some? {
      var after := [segment.closer.value] + rest;
      assert LinesOf(segment) + rest == [segment.opener] + (segment.body + after);
      FoldOpened(s, segment, after);
      FoldOne(Opened(s, segment), segment.closer.value, rest);
    } else {
      assert LinesOf(segment) == [segment.opener] + (segment.body + []);
      FoldOpened(s, segment, []);
    }
  }

  lemma FoldOne(s: Scan, line: string, rest: seq<string>)
    ensures Fold(s, [line] + rest) == Fold(Step(s, line), rest)
  {
    assert ([line] + rest)[1..] == rest;
  }

  lemma FoldOpened(s: Scan, segment: Segment, after: seq<string>)
    requires s.fence.None? && segment.Fenced? && WellFormed(segment)
    ensures Fold(s, [segment.opener] + (segment.body + after)) == Fold(Opened(s, segment), after)
  {
    var begun := s.(fence := Some(Fence(Language(segment.opener), [])));
    FoldOne(s, segment.opener, segment.body + after);
    FoldBody(begun, segment.body, after);
    assert [] + segment.body == segment.body;
  }

  function Opened(s: Scan, segment: Segment): Scan
    requires segment.Fenced? && WellFormed(segment)
  {
    s.(fence := Some(Fence(Language(segment.opener), segment.body)))
  }

  function Read(s: Scan, segment: Segment): Scan
    requires segment.Fenced? && WellFormed(segment)
  {
    Emit(Opened(s, segment), Opened(s, segment).fence.value, segment.closer.Some?)
  }

  lemma ReadShows(s: Scan, segment: Segment)
    requires segment.Fenced? && WellFormed(segment)
    ensures Read(s, segment).out == s.out + (Paragraph(s.prose) + Shown(segment))
  {
  }

  lemma ReadLeavesBlank(s: Scan, segment: Segment, segments: seq<Segment>)
    requires segment.Fenced? && WellFormed(segment) && Layout(segments)
    ensures Pending(Read(s, segment).prose, segments) == Pending("", segments)
  {
    TrimNothing(s.prose, NEWLINES);
    if Trim(s.prose, NEWLINES) == "" {
      BlankPending(s.prose, "", segments);
      assert s.prose + "" == s.prose;
    }
  }

  lemma NothingFollowsAnOpenFence(segments: seq<Segment>)
    requires Layout(segments) && segments != [] && segments[0].Fenced? && segments[0].closer.None?
    ensures segments[1..] == []
  {
    assert |segments| > 1 ==> !MayFollow(segments[0], segments[1]);
  }

  lemma {:induction false} ScanFollowsLayout(s: Scan, segments: seq<Segment>)
    requires s.fence.None? && Layout(segments)
    ensures Finish(Fold(s, Flatten(segments))) == s.out + Pending(s.prose, segments)
    decreases |segments|
  {
    if segments == [] {
    } else {
      var segment, rest := segments[0], segments[1..];
      if segment.Text? {
        FoldProse(s, segment.lines, Flatten(rest));
        ScanFollowsLayout(s.(prose := s.prose + Ended(segment.lines)), rest);
      } else {
        FoldFence(s, segment, Flatten(rest));
        ReadShows(s, segment);
        ReadLeavesBlank(s, segment, rest);
        Regroup(s.out, Paragraph(s.prose) + Shown(segment), Pending("", rest));
        if segment.closer.Some? {
          ScanFollowsLayout(Read(s, segment), rest);
        } else {
          NothingFollowsAnOpenFence(segments);
          assert LinesOf(segment) + [] == LinesOf(segment);
        }
      }
    }
  }

  lemma {:induction false} PendingShowsAll(segments: seq<Segment>)
    requires Layout(segments)
    ensures Pending("", segments) == ShownAll(segments)
    decreases |segments|
  {
    if segments == [] {
      TrimNothing("", NEWLINES);
    } else if segments[0].Text? {
      var rest := segments[1..];
      assert "" + Ended(segments[0].lines) == Ended(segments[0].lines);
      if rest == [] {
      } else {
        assert MayFollow(segments[0], segments[1]);
        TrimNothing("", NEWLINES);
        PendingShowsAll(rest);
        PendingAfterProse(Ended(segments[0].lines), rest);
      }
    } else {
      TrimNothing("", NEWLINES);
      PendingShowsAll(segments[1..]);
    }
  }

  lemma PendingAfterProse(prose: string, segments: seq<Segment>)
    requires Layout(segments) && segments != [] && segments[0].Fenced?
    ensures Pending(prose, segments) == Paragraph(prose) + Pending("", segments)
  {
    TrimNothing("", NEWLINES);
  }

  /**
   No line is lost and nothing is reordered: however the lines of a text are laid out as prose and fences, the blocks
   are what that layout shows, segment by segment.
   */
  lemma BlocksShowTheLayout(text: string, segments: seq<Segment>)
    requires Layout(segments) && Flatten(segments) == Split(text, '\n')
    ensures Blocks(text) == ShownAll(segments)
  {
    ScanFollowsLayout(START, segments);
    PendingShowsAll(segments);
  }

  // ---- every text has a layout ----

  /** The number of lines before the first fence. */
  function Run(lines: seq<string>): (n: nat)
    ensures n <= |lines| && NoFence(lines[..n]) && (n < |lines| ==> IsFence(lines[n]))
  {
    if lines == [] || IsFence(lines[0]) then 0
    else
      var n := 1 + Run(lines[1..]);
      assert lines[..n] == [lines[0]] + lines[1..][..n - 1];
      n
  }

  /** The segment at the head of the lines: all prose up to a fence, or a fence up to its closer. */
  function First(lines: seq<string>): (r: Segment)
    requires lines != []
  {
    var n := Run(lines);
    if n > 0 then Text(lines[..n]) else
    var m := Run(lines[1..]);
    Fenced(lines[0], lines[1..m + 1], if m + 1 == |lines| then None else Some(lines[m + 1]))
  }

  lemma FirstIsAHead(lines: seq<string>)
    requires lines != []
    ensures WellFormed(First(lines)) && LinesOf(First(lines)) != [] && LinesOf(First(lines)) <= lines
    ensures var n := |LinesOf(First(lines))|; n < |lines| ==> MayFollow(First(lines), First(lines[n..]))
  {
    if Run(lines) == 0 {
      assert lines[1..Run(lines[1..]) + 1] == lines[1..][..Run(lines[1..])];
    }
  }

  function LayoutOf(lines: seq<string>): (r: seq<Segment>)
    ensures lines != [] ==> r != [] && r[0] == First(lines)
    ensures lines == [] ==> r == []
    decreases |lines|
  {
    if lines == [] then [] else
    FirstIsAHead(lines);
    [First(lines)] + LayoutOf(lines[|LinesOf(First(lines))|..])
  }

  lemma LayoutCons(segment: Segment, rest: seq<Segment>)
    requires WellFormed(segment) && Layout(rest) && (rest != [] ==> MayFollow(segment, rest[0]))
    ensures Layout([segment] + rest) && Flatten([segment] + rest) == LinesOf(segment) + Flatten(rest)
  {
    var all := [segment] + rest;
    assert all[1..] == rest;
    forall i | 0 < i < |all| ensures MayFollow(all[i - 1], all[i]) {
      if i > 1 { assert MayFollow(rest[i - 2], rest[i - 1]); }
    }
  }

  /** Every text has a layout, so the blocks of every text are those of its layout. */
  lemma {:induction false} EveryTextHasALayout(lines: seq<string>)
    ensures Layout(LayoutOf(lines)) && Flatten(LayoutOf(lines)) == lines
    decreases |lines|
  {
    if lines != [] {
      FirstIsAHead(lines);
      var first := First(lines);
      var n := |LinesOf(first)|;
      EveryTextHasALayout(lines[n..]);
      HeadAndRest(first, lines, LayoutOf(lines[n..]));
    }
  }

  lemma HeadAndRest(first: Segment, lines: seq<string>, rest: seq<Segment>)
    requires WellFormed(first) && LinesOf(first) <= lines && Layout(rest)
    requires Flatten(rest) == lines[|LinesOf(first)|..] && (rest != [] ==> MayFollow(first, rest[0]))
    ensures Layout([first] + rest) && Flatten([first] + rest) == lines
  {
    LayoutCons(first, rest);
  }
}
