/** Which numbers elements get, and what a switch of the frame or a reset makes of the references before it. */
module ElementEffects {
  import opened Wrappers
  import opened ElementRefs

  predicate NoneTwice(elements: seq<Element>) {
    forall i, j :: 0 <= i < j < |elements| ==> elements[i] != elements[j]
  }

  function Looking(elements: seq<Element>): (events: seq<Event>)
    ensures |events| == |elements| && OnlyLooks(events)
  {
    seq(|elements|, i requires 0 <= i < |elements| => Looks(elements[i]))
  }

  /** Elements that are new to the table get the next numbers, in the order they are looked at. */
  lemma {:induction false} NumbersAreGivenInOrder(t: Table, elements: seq<Element>, i: nat)
    requires Inv(t) && NoneTwice(elements) && i < |elements|
    requires forall k :: 0 <= k < |elements| ==> !Known(t, elements[k])
    ensures var after := Run(t, Looking(elements)); Known(after, elements[i]) && RefOf(after, elements[i]) == t.nextRef + i
    decreases |elements|
  {
    var events := Looking(elements);
    var t' := Next(t, events[0]);
    assert events[1..] == Looking(elements[1..]);
    LookupKeeps(t, elements[0]);
    if i == 0 {
      KnownStays(t', elements[0], events[1..]);
    } else {
      assert elements[1..][i - 1] == elements[i];
      StillUnknown(t, elements);
      NumbersAreGivenInOrder(t', elements[1..], i - 1);
    }
  }

  lemma StillUnknown(t: Table, elements: seq<Element>)
    requires Inv(t) && NoneTwice(elements) && elements != []
    requires forall k :: 0 <= k < |elements| ==> !Known(t, elements[k])
    ensures forall k :: 0 <= k < |elements| - 1 ==> !Known(Lookup(t, elements[0]), elements[1..][k])
  {
    var t' := Lookup(t, elements[0]);
    forall k | 0 <= k < |elements| - 1 ensures !Known(t', elements[1..][k]) {
      var e := elements[k + 1];
      assert e != elements[0] && !Known(t, e);
    }
  }

  /** After a reset the numbers start at 1; after a switch of the frame they go on. */
  lemma NumbersAfterClearing(events: seq<Event>, document: Option<Document>, elements: seq<Element>, i: nat)
    requires NoneTwice(elements) && i < |elements|
    ensures var t := Run(START, events);
            && RefOf(Run(Next(t, Resets), Looking(elements)), elements[i]) == i + 1
            && RefOf(Run(Next(t, Frames(document)), Looking(elements)), elements[i]) == t.nextRef + i
  {
    RunKeeps(START, events);
    var t := Run(START, events);
    NumbersAreGivenInOrder(Next(t, Resets), elements, i);
    NumbersAreGivenInOrder(Next(t, Frames(document)), elements, i);
  }

  /** No reference outlives a reset or a switch of the frame. */
  lemma ClearingForgetsAll(t: Table, document: Option<Document>, ref: string, where: map<Element, Place>)
    ensures Check(Next(t, Resets), ref, where).None? && Check(Next(t, Frames(document)), ref, where).None?
  {
  }

  /** After the switch only elements of the new document are found, after a reset those of every document. */
  lemma FrameDecidesWhoIsFound(events: seq<Event>, document: Option<Document>, e: Element, where: map<Element, Place>)
    requires e in where && where[e].connected && Run(START, events).nextRef <= MAX_REF
    ensures var t := Run(START, events);
            var framed, reset := Next(t, Frames(document)), Next(t, Resets);
            && (Check(Lookup(framed, e), Written(RefOf(framed, e)), where) == Some(e) <==> document.None? || where[e].owner == document.value)
            && Check(Lookup(reset, e), Written(RefOf(reset, e)), where) == Some(e)
  {
    var t := Run(START, events);
    RunKeeps(START, events);
    RunThen(START, events, Frames(document));
    RunThen(START, events, Resets);
    CheckInvertsRef(events + [Frames(document)], e, where);
    CheckInvertsRef(events + [Resets], e, where);
  }

  lemma {:induction false} RunThen(t: Table, events: seq<Event>, e: Event)
    ensures Run(t, events + [e]) == Next(Run(t, events), e)
    decreases |events|
  {
    if events == [] {
      assert (events + [e])[1..] == [];
    } else {
      assert (events + [e])[1..] == events[1..] + [e];
      RunThen(Next(t, events[0]), events[1..], e);
    }
  }
}
