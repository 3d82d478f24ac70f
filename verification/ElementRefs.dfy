/**
 The table of element references (apps/desktop/src/browser-dom-automation.ts). Elements and documents are numbers;
 a reference is known by the number it is written with.
 */
module ElementRefs {
  import opened Wrappers

  type Element = nat
  type Document = nat

  // ---- how a reference is written ----

  predicate IsDigit(c: char) {
    '0' <= c <= '9'
  }

  function Digits(n: nat): string {
    (if n < 10 then "" else Digits(n / 10)) + [('0' as int + n % 10) as char]
  }

  function Value(s: string): nat
    requires forall i :: 0 <= i < |s| ==> IsDigit(s[i])
  {
    if s == "" then 0 else
    assert IsDigit(s[|s| - 1]);
    10 * Value(s[..|s| - 1]) + (s[|s| - 1] as int - '0' as int)
  }

  function Written(n: nat): string {
    "@e" + Digits(n)
  }

  /** The shape a reference must have: @e, then at most nine digits, the first of them not zero. */
  predicate WellWritten(s: string) {
    && 3 <= |s| <= 11 && s[..2] == "@e" && s[2] != '0'
    && forall i :: 2 <= i < |s| ==> IsDigit(s[i])
  }

  const MAX_REF := 999_999_999

  lemma {:induction false} DigitsRead(n: nat)
    ensures forall i :: 0 <= i < |Digits(n)| ==> IsDigit(Digits(n)[i])
    ensures Digits(n) != "" && Value(Digits(n)) == n && (n > 0 ==> Digits(n)[0] != '0')
  {
    if n >= 10 {
      DigitsRead(n / 10);
      assert Digits(n)[..|Digits(n)| - 1] == Digits(n / 10);
    } else {
      assert Digits(n)[..0] == "" && Value("") == 0;
    }
  }

  /** Powers of ten, up to the first that needs ten digits. */
  function Tens(k: nat): nat {
    if k == 0 then 1 else 10 * Tens(k - 1)
  }

  lemma {:induction false} DigitsCount(n: nat, k: nat)
    requires k > 0
    ensures |Digits(n)| <= k <==> n < Tens(k)
    decreases n
  {
    if n >= 10 {
      if k > 1 {
        DigitsCount(n / 10, k - 1);
        assert n / 10 < Tens(k - 1) <==> n < Tens(k);
      } else {
        DigitsRead(n / 10);
        assert Tens(1) == 10 by { assert Tens(0) == 1; }
      }
    } else {
      TensGrow(k);
    }
  }

  lemma {:induction false} TensGrow(k: nat)
    requires k > 0
    ensures Tens(k) >= 10
  {
    if k > 1 { TensGrow(k - 1); } else { assert Tens(0) == 1; }
  }

  /** A written reference has the accepted shape exactly for the numbers from 1 to 999999999. */
  lemma WrittenIsWellWritten(n: nat)
    ensures WellWritten(Written(n)) <==> 1 <= n <= MAX_REF
  {
    DigitsRead(n);
    DigitsCount(n, 9);
    assert Tens(9) == 1_000_000_000 by {
      assert Tens(3) == 1000 && Tens(6) == 1_000_000;
    }
    var s := Written(n);
    assert s[..2] == "@e" && s[2..] == Digits(n);
    if n == 0 { assert Digits(0) == "0"; }
    forall i | 2 <= i < |s| ensures IsDigit(s[i]) { assert s[i] == Digits(n)[i - 2]; }
  }

  /** Different numbers are written differently. */
  lemma WrittenIsInjective(m: nat, n: nat)
    requires Written(m) == Written(n)
    ensures m == n
  {
    DigitsRead(m);
    DigitsRead(n);
    assert Written(m)[2..] == Digits(m) && Written(n)[2..] == Digits(n);
  }

  // ---- the table ----

  /** refs is cleared, elements never is; issued remembers who got which number since the last reset. */
  datatype Table = Table(
    refs: map<nat, Element>,
    elements: map<Element, nat>,
    nextRef: nat,
    activeDocument: Option<Document>,
    issued: map<nat, Element>)

  const START := Table(map[], map[], 1, None, map[])

  predicate Known(t: Table, e: Element) {
    e in t.elements && t.elements[e] in t.refs && t.refs[t.elements[e]] == e
  }

  /** The reference elementRef returns. */
  function RefOf(t: Table, e: Element): nat {
    if Known(t, e) then t.elements[e] else t.nextRef
  }

  function Lookup(t: Table, e: Element): Table {
    if Known(t, e) then t
    else
      t.(nextRef := t.nextRef + 1, elements := t.elements[e := t.nextRef], refs := t.refs[t.nextRef := e],
         issued := t.issued[t.nextRef := e])
  }

  /** What the page says about an element when a reference to it is used. */
  datatype Place = Place(connected: bool, owner: Document)

  function Check(t: Table, ref: string, where: map<Element, Place>): Option<Element> {
    if !WellWritten(ref) then None else
    var n := Value(ref[2..]);
    if n !in t.refs || t.refs[n] !in where then None else
    var place := where[t.refs[n]];
    if !place.connected || (t.activeDocument.Some? && place.owner != t.activeDocument.value) then None else Some(t.refs[n])
  }

  function Frame(t: Table, document: Option<Document>): Table {
    t.(activeDocument := document, refs := map[])
  }

  function Reset(t: Table): Table {
    t.(refs := map[], nextRef := 1, activeDocument := None, issued := map[])
  }

  // ---- runs ----

  datatype Event = Looks(e: Element) | Frames(document: Option<Document>) | Resets

  function Next(t: Table, e: Event): Table {
    match e
    case Looks(element) => Lookup(t, element)
    case Frames(document) => Frame(t, document)
    case Resets => Reset(t)
  }

  function Run(t: Table, events: seq<Event>): Table
    decreases |events|
  {
    if events == [] then t else Run(Next(t, events[0]), events[1..])
  }

  /** The weak map is right about every element in the table, however old its other entries are. */
  ghost predicate Inv(t: Table) {
    && t.nextRef >= 1
    && (forall r :: r in t.refs ==> t.refs[r] in t.elements && t.elements[t.refs[r]] == r)
    && (forall r :: r in t.refs ==> r in t.issued && t.issued[r] == t.refs[r])
    && (forall r :: r in t.issued ==> 1 <= r < t.nextRef)
  }

  lemma LookupKeeps(t: Table, e: Element)
    requires Inv(t)
    ensures Inv(Lookup(t, e))
  {
  }

  lemma {:induction false} RunKeeps(t: Table, events: seq<Event>)
    requires Inv(t)
    ensures Inv(Run(t, events))
    decreases |events|
  {
    if events != [] {
      if events[0].Looks? { LookupKeeps(t, events[0].e); }
      RunKeeps(Next(t, events[0]), events[1..]);
    }
  }

  /** In every run no two references stand for one element, and no element has two. */
  lemma TableIsInjective(events: seq<Event>, r: nat, q: nat)
    ensures var t := Run(START, events); r in t.refs && q in t.refs && t.refs[r] == t.refs[q] ==> r == q
  {
    RunKeeps(START, events);
  }

  ghost predicate OnlyLooks(events: seq<Event>) {
    forall i :: 0 <= i < |events| ==> events[i].Looks?
  }

  ghost predicate NoReset(events: seq<Event>) {
    forall i :: 0 <= i < |events| ==> !events[i].Resets?
  }

  /** A reference stays with its element until the table is cleared: asking again gives it again. */
  lemma {:induction false} RefIsStable(t: Table, e: Element, events: seq<Event>)
    requires Inv(t) && OnlyLooks(events)
    ensures RefOf(Run(Lookup(t, e), events), e) == RefOf(t, e)
    ensures Known(Run(Lookup(t, e), events), e)
    decreases |events|
  {
    LookupKeeps(t, e);
    KnownStays(Lookup(t, e), e, events);
  }

  lemma {:induction false} KnownStays(t: Table, e: Element, events: seq<Event>)
    requires Inv(t) && OnlyLooks(events) && Known(t, e)
    ensures Known(Run(t, events), e) && RefOf(Run(t, events), e) == RefOf(t, e)
    decreases |events|
  {
    if events != [] {
      assert events[0].Looks?;
      LookupKeeps(t, events[0].e);
      KnownStays(Lookup(t, events[0].e), e, events[1..]);
    }
  }

  /** Between resets no number is given to a second element, also over frame switches. */
  lemma {:induction false} NoRefIsReissued(t: Table, events: seq<Event>, r: nat)
    requires Inv(t) && NoReset(events) && r in t.issued
    ensures r in Run(t, events).issued && Run(t, events).issued[r] == t.issued[r]
    decreases |events|
  {
    if events != [] {
      assert !events[0].Resets?;
      if events[0].Looks? { LookupKeeps(t, events[0].e); }
      NoRefIsReissued(Next(t, events[0]), events[1..], r);
    }
  }

  /** What a used reference finds is the element that was given it since the last reset. */
  lemma CheckedRefWasIssued(events: seq<Event>, ref: string, where: map<Element, Place>)
    ensures var t := Run(START, events);
            Check(t, ref, where).Some? ==>
              Value(ref[2..]) in t.issued && t.issued[Value(ref[2..])] == Check(t, ref, where).value
  {
    RunKeeps(START, events);
  }

  /**
   checkRef inverts elementRef: the reference just given to an element leads back to it exactly when its number has
   at most nine digits and the element is connected and belongs to the active document, if there is one.
   */
  lemma CheckInvertsRef(events: seq<Event>, e: Element, where: map<Element, Place>)
    requires e in where
    ensures var t := Run(START, events);
            var after := Lookup(t, e);
            var found := Check(after, Written(RefOf(t, e)), where);
            && (found.Some? ==> found.value == e)
            && (found.Some? <==>
                  && RefOf(t, e) <= MAX_REF && where[e].connected
                  && (t.activeDocument.Some? ==> where[e].owner == t.activeDocument.value))
  {
    RunKeeps(START, events);
    var t := Run(START, events);
    LookupKeeps(t, e);
    var n := RefOf(t, e);
    WrittenIsWellWritten(n);
    DigitsRead(n);
    assert Written(n)[2..] == Digits(n);
    assert Lookup(t, e).refs[n] == e;
  }

  // ---- the module variables as the source updates them ----

  class DomAutomation {
    var refs: map<nat, Element>
    var elements: map<Element, nat>
    var nextRef: nat
    var activeDocument: Option<Document>
    ghost var issued: map<nat, Element>

    ghost function Model(): Table
      reads this
    {
      Table(refs, elements, nextRef, activeDocument, issued)
    }

    constructor ()
      ensures Model() == START
    {
      refs, elements, nextRef, activeDocument, issued := map[], map[], 1, None, map[];
    }

    method ElementRef(e: Element) returns (ref: nat)
      modifies this`refs, this`elements, this`nextRef, this`issued
      ensures ref == RefOf(old(Model()), e) && Model() == Lookup(old(Model()), e)
    {
      if e in elements {
        var previous := elements[e];
        if previous in refs && refs[previous] == e { return previous; }
      }
      ref := nextRef;
      nextRef := nextRef + 1;
      elements, refs := elements[e := ref], refs[ref := e];
      issued := issued[ref := e];
    }

    method SelectFrame(document: Option<Document>)
      modifies this`refs, this`activeDocument
      ensures Model() == Frame(old(Model()), document)
    {
      activeDocument, refs := document, map[];
    }

    method ResetAll()
      modifies this`refs, this`nextRef, this`activeDocument, this`issued
      ensures Model() == Reset(old(Model()))
    {
      refs, nextRef, activeDocument, issued := map[], 1, None, map[];
    }
  }
}
