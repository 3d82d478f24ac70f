/** Runs of a remote target, all of which the code can make, that end with a client replaced without being closed. */
module TargetExamples {
  import opened Wrappers
  import opened TargetModel
  import opened TargetQueues
  import opened TargetQueueTheorems
  import opened TargetOverlaps

  lemma Before(d: Desk, s: Step, rest: seq<Step>)
    requires Possible(d, s) && Real(StepOf(d, s), rest)
    ensures Real(d, [s] + rest) && Steps(d, [s] + rest) == Steps(StepOf(d, s), rest)
  {
    assert ([s] + rest)[1..] == rest;
  }

  /** A removal that has been requested and has begun. */
  function RemovalBegun(): Desk {
    Desk(false, CloseRuntime(UNKNOWN).(ops := map[0 := Removing]), Line([Request(Remove, None, true)], Some(0), {}))
  }

  lemma RemovalBegins(d0: Desk, d1: Desk, d2: Desk)
    requires d0 == Opened(false) && d1 == StepOf(d0, Requests(Remove)) && d2 == StepOf(d1, Starts(0))
    ensures Possible(d0, Requests(Remove)) && Possible(d1, Starts(0)) && d2 == RemovalBegun()
  {
    assert CanStart(d1.line, 0);
  }

  lemma RemovalIsOutstanding(d: Desk)
    requires d == RemovalBegun()
    ensures Possible(d, Requests(Connect)) && Sound(d) && Hasty(d, Connect)
  {
    var d0 := Opened(false);
    var d1 := StepOf(d0, Requests(Remove));
    RemovalBegins(d0, d1, d);
    OpenedHolds(false);
    StepKeepsSound(d0, Requests(Remove));
    StepKeepsSound(d1, Starts(0));
    assert Outstanding(d.line, 0);
  }

  /** A removal and a connect behind it, with a registry that answers in any order. */
  lemma ClientAbandonedAfterARemoval() returns (more: seq<Step>, c: ClientId)
    ensures var run := [Requests(Remove)] + ([Starts(0)] + ([Requests(Connect)] + more));
            Real(Opened(false), run) && Abandoned(Steps(Opened(false), run).target, c)
  {
    var d0 := Opened(false);
    var d1 := StepOf(d0, Requests(Remove));
    var d2 := StepOf(d1, Starts(0));
    var d3 := StepOf(d2, Requests(Connect));
    RemovalBegins(d0, d1, d2);
    RemovalIsOutstanding(d2);
    var d';
    d', c := HastyRequestCanAbandonAClient(d2, Connect);
    more :| Careful(d3, more) && Real(d3, more) && Steps(d3, more) == d';
    Before(d2, Requests(Connect), more);
    Before(d1, Starts(0), [Requests(Connect)] + more);
    Before(d0, Requests(Remove), [Starts(0)] + ([Requests(Connect)] + more));
  }

  // ---- a registry that answers in order ----

  predicate AtLookup(t: Target, op: nat) {
    op in t.ops && (t.ops[op].Lookup? || t.ops[op].PairLookup?)
  }

  /** The operation that a step lets go on. */
  function Mover(s: Step): Option<nat> {
    if s.Starts? then Some(s.op) else if s.Continues? && IsContinuation(s.e) then Some(s.e.op) else None
  }

  /** Only the oldest lookup is answered. */
  predicate InTurn(d: Desk, asked: seq<nat>, s: Step) {
    Mover(s).Some? && AtLookup(d.target, Mover(s).value) ==> asked != [] && asked[0] == Mover(s).value
  }

  /** The lookups that wait for an answer, oldest first. */
  function Asked(d: Desk, asked: seq<nat>, s: Step): seq<nat> {
    if Mover(s).None? then asked else
    var op := Mover(s).value;
    var rest := if asked != [] && asked[0] == op then asked[1..] else asked;
    if AtLookup(StepOf(d, s).target, op) && op !in rest then rest + [op] else rest
  }

  predicate InOrder(d: Desk, asked: seq<nat>, steps: seq<Step>)
    decreases |steps|
  {
    steps == [] || (InTurn(d, asked, steps[0]) && InOrder(StepOf(d, steps[0]), Asked(d, asked, steps[0]), steps[1..]))
  }

  /** A run with answers in order that ends with its second client abandoned. */
  predicate Strays(d: Desk, asked: seq<nat>, steps: seq<Step>) {
    Real(d, steps) && InOrder(d, asked, steps) && Abandoned(Steps(d, steps).target, 1)
  }

  predicate Fails(d: Desk, asked: seq<nat>, steps: seq<Step>) {
    Careful(d, steps) && Strays(d, asked, steps)
  }

  lemma StraysBefore(d: Desk, asked: seq<nat>, s: Step, d': Desk, asked': seq<nat>, rest: seq<Step>)
    requires Possible(d, s) && InTurn(d, asked, s) && StepOf(d, s) == d' && Asked(d, asked, s) == asked'
    requires Strays(d', asked', rest)
    ensures Strays(d, asked, [s] + rest)
  {
    assert ([s] + rest)[1..] == rest;
  }

  lemma FailsBefore(d: Desk, asked: seq<nat>, s: Step, d': Desk, asked': seq<nat>, rest: seq<Step>)
    requires Allowed(d, s) && InTurn(d, asked, s) && StepOf(d, s) == d' && Asked(d, asked, s) == asked'
    requires Fails(d', asked', rest)
    ensures Fails(d, asked, [s] + rest)
  {
    assert ([s] + rest)[1..] == rest;
  }

  /** Everything has begun, and what is in flight really waits. */
  predicate Still(d: Desk) {
    && (forall k :: 0 <= k < |d.line.requests| ==> d.line.requests[k].begun)
    && forall op :: op in d.target.ops ==> !Immediate(d.target, d.target.ops[op]) && !d.target.ops[op].PairConnecting?
  }

  lemma StillAllows(d: Desk, s: Step)
    requires Still(d) && !s.Requests? && (s.Hears? ==> ClientMay(d.target, s.e))
    ensures Allowed(d, s)
  {
  }

  /** The removal, two connects behind it, and a connect on the new chain; all have begun and some have settled. */
  function FourBegun(settled: set<nat>): Line {
    Line([Request(Remove, None, true), Request(Connect, Some(0), true), Request(Connect, Some(1), true),
          Request(Connect, None, true)], Some(3), settled)
  }

  /** The connect of the new chain installs the third client over the second. */
  lemma ThirdClient(t: Target, d: Desk) returns (steps: seq<Step>)
    requires d == Desk(false, t, FourBegun({0, 1, 2})) && t.ops == map[3 := Closing(ToConnect, 0, true)]
    requires |t.clients| == 2 && !t.clients[1].closed
    ensures Fails(d, [], steps)
  {
    var closed := Continues(CloseDone(3, true));
    var d1 := Desk(false, Install(t, 0, true).(ops := map[]), FourBegun({0, 1, 2, 3}));
    assert t.ops - {3} == map[];
    assert Fails(d1, [], []);
    StillAllows(d, closed);
    FailsBefore(d, [], closed, d1, [], []);
    steps := [closed] + [];
  }

  /** While that connect waits for a close, the second hasty one, which found no client, installs one at once. */
  lemma SecondInstalls(t: Target, d: Desk) returns (steps: seq<Step>)
    requires d == Desk(false, t, FourBegun({0, 1})) && |t.clients| == 1
    requires t.ops == map[2 := Closing(ToConnect, 0, false), 3 := Closing(ToConnect, 0, true)]
    ensures Fails(d, [], steps)
  {
    var closed, ops := Continues(CloseDone(2, true)), map[3 := Closing(ToConnect, 0, true)];
    var d1 := Desk(false, Install(t, 0, true).(ops := ops), FourBegun({0, 1, 2}));
    steps := ThirdClient(d1.target, d1);
    assert Ripe(d, 2);
    assert t.ops - {2} == ops;
    FailsBefore(d, [], closed, d1, [], steps);
    steps := [closed] + steps;
  }

  lemma SecondClient(t: Target, d: Desk) returns (steps: seq<Step>)
    requires d == Desk(false, t, FourBegun({0, 1}))
    requires t.ops == map[2 := Lookup(ToConnect), 3 := Closing(ToConnect, 0, true)]
    requires t.runtime.None? && |t.clients| == 1
    ensures Fails(d, [2], steps)
  {
    var answered := Continues(LookupDone(2, 0));
    var ops := map[2 := Closing(ToConnect, 0, false), 3 := Closing(ToConnect, 0, true)];
    var d1 := Desk(false, CloseRuntime(t).(ops := ops), FourBegun({0, 1}));
    steps := SecondInstalls(d1.target, d1);
    StillAllows(d, answered);
    assert t.ops[2 := Closing(ToConnect, 0, false)] == ops;
    FailsBefore(d, [2], answered, d1, [], steps);
    steps := [answered] + steps;
  }

  /** The connect of the new chain finds the first client failed, and closes it. */
  lemma SecondAnswer(t: Target, d: Desk) returns (steps: seq<Step>)
    requires d == Desk(false, t, FourBegun({0, 1})) && t.ops == map[2 := Lookup(ToConnect), 3 := Lookup(ToConnect)]
    requires t.runtime == Some(0) && |t.clients| == 1 && t.clients[0].state == Fatal
    ensures Fails(d, [3, 2], steps)
  {
    var answered := Continues(LookupDone(3, 0));
    var ops := map[2 := Lookup(ToConnect), 3 := Closing(ToConnect, 0, true)];
    var d1 := d.(target := CloseRuntime(t).(ops := ops));
    steps := SecondClient(d1.target, d1);
    StillAllows(d, answered);
    assert t.ops[3 := Closing(ToConnect, 0, true)] == ops;
    FailsBefore(d, [3, 2], answered, d1, [2], steps);
    steps := [answered] + steps;
  }

  /** The first client fails. */
  lemma FirstClientFails(t: Target, d: Desk) returns (steps: seq<Step>)
    requires d == Desk(false, t, FourBegun({0, 1})) && t.ops == map[2 := Lookup(ToConnect), 3 := Lookup(ToConnect)]
    requires t.runtime == Some(0) && |t.clients| == 1 && !t.clients[0].closed && t.clients[0].state == Ready
    ensures Fails(d, [3, 2], steps)
  {
    var failed := Hears(ClientMoved(0, Fatal));
    var d1 := d.(target := Moved(t, 0, Fatal));
    steps := SecondAnswer(d1.target, d1);
    StillAllows(d, failed);
    FailsBefore(d, [3, 2], failed, d1, [3, 2], steps);
    steps := [failed] + steps;
  }

  /** It had connected and got ready before. */
  lemma FirstClientGreets(t: Target, d: Desk) returns (steps: seq<Step>)
    requires d == Desk(false, t, FourBegun({0, 1})) && t.ops == map[2 := Lookup(ToConnect), 3 := Lookup(ToConnect)]
    requires t.runtime == Some(0) && |t.clients| == 1 && !t.clients[0].closed && t.clients[0].state == Handshaking
    ensures Fails(d, [3, 2], steps)
  {
    var ready := Hears(ClientMoved(0, Ready));
    var d1 := d.(target := Greeted(t, 0));
    steps := FirstClientFails(d1.target, d1);
    StillAllows(d, ready);
    FailsBefore(d, [3, 2], ready, d1, [3, 2], steps);
    steps := [ready] + steps;
  }

  lemma FirstClientConnects(t: Target, d: Desk) returns (steps: seq<Step>)
    requires d == Desk(false, t, FourBegun({0, 1})) && t.ops == map[2 := Lookup(ToConnect), 3 := Lookup(ToConnect)]
    requires t.runtime == Some(0) && |t.clients| == 1 && !t.clients[0].closed && t.clients[0].state == Other
    ensures Fails(d, [3, 2], steps)
  {
    var connecting, shaking := Hears(ClientMoved(0, Connecting)), Hears(ClientMoved(0, Handshaking));
    var d1 := d.(target := Moved(t, 0, Connecting));
    var d2 := d1.(target := Moved(d1.target, 0, Handshaking));
    steps := FirstClientGreets(d2.target, d2);
    StillAllows(d1, shaking);
    FailsBefore(d1, [3, 2], shaking, d2, [3, 2], steps);
    StillAllows(d, connecting);
    FailsBefore(d, [3, 2], connecting, d1, [3, 2], [shaking] + steps);
    steps := [connecting] + ([shaking] + steps);
  }

  /** The removal and the two connects behind it; the connect of the new chain may have been requested and begun. */
  function Behind(first: bool, tail: Option<nat>, settled: set<nat>, more: seq<Request>): Line {
    Line([Request(Remove, None, true), Request(Connect, Some(0), first), Request(Connect, Some(1), false)] + more,
         tail, settled)
  }

  /** The first hasty connect has settled, and the second begins. */
  lemma SecondBegins(t: Target, d: Desk) returns (steps: seq<Step>)
    requires d == Desk(false, t, Behind(true, Some(3), {0, 1}, [Request(Connect, None, true)]))
    requires t.ops == map[3 := Lookup(ToConnect)] && t.runtime == Some(0) && |t.clients| == 1
    requires !t.clients[0].closed && t.clients[0].state == Other
    ensures Fails(d, [3], steps)
  {
    var ops := map[2 := Lookup(ToConnect), 3 := Lookup(ToConnect)];
    var d1 := Desk(false, t.(ops := ops), FourBegun({0, 1}));
    steps := FirstClientConnects(d1.target, d1);
    assert Ripe(d, 2);
    assert t.ops[2 := Lookup(ToConnect)] == ops && Start(d.line, 2) == d1.line;
    FailsBefore(d, [3], Starts(2), d1, [3, 2], steps);
    steps := [Starts(2)] + steps;
  }

  /** The first hasty connect found no client and installs one at once. */
  lemma FirstInstalls(t: Target, d: Desk) returns (steps: seq<Step>)
    requires d == Desk(false, t, Behind(true, Some(3), {0}, [Request(Connect, None, true)])) && t.clients == []
    requires t.ops == map[1 := Closing(ToConnect, 0, false), 3 := Lookup(ToConnect)]
    ensures Fails(d, [3], steps)
  {
    var closed := Continues(CloseDone(1, true));
    var t1 := Install(t, 0, true).(ops := map[3 := Lookup(ToConnect)]);
    var d1 := Desk(false, t1, Behind(true, Some(3), {0, 1}, [Request(Connect, None, true)]));
    steps := SecondBegins(t1, d1);
    assert Ripe(d, 1);
    assert t.ops - {1} == t1.ops;
    FailsBefore(d, [3], closed, d1, [3], steps);
    steps := [closed] + steps;
  }

  /** While the first hasty connect reads its record, a connect on a new chain begins. */
  lemma NewChainBegins(t: Target, d: Desk) returns (steps: seq<Step>)
    requires d == Desk(false, t, Behind(true, None, {0}, [])) && t.clients == [] && t.runtime.None?
    requires t.ops == map[1 := Lookup(ToConnect)]
    ensures Fails(d, [1], steps)
  {
    var d1 := d.(line := Behind(true, Some(3), {0}, [Request(Connect, None, false)]));
    var both := map[1 := Lookup(ToConnect), 3 := Lookup(ToConnect)];
    var d2 := Desk(false, t.(ops := both), Behind(true, Some(3), {0}, [Request(Connect, None, true)]));
    steps := FirstAnswer(d2.target, d2);
    assert Ripe(d1, 3);
    assert t.ops[3 := Lookup(ToConnect)] == both && Start(d1.line, 3) == d2.line;
    FailsBefore(d1, [1], Starts(3), d2, [1, 3], steps);
    assert !Restless(d);
    assert Ask(d.line, Connect) == d1.line;
    FailsBefore(d, [1], Requests(Connect), d1, [1], [Starts(3)] + steps);
    steps := [Requests(Connect)] + ([Starts(3)] + steps);
  }

  lemma FirstAnswer(t: Target, d: Desk) returns (steps: seq<Step>)
    requires d == Desk(false, t, Behind(true, Some(3), {0}, [Request(Connect, None, true)])) && t.clients == []
    requires t.runtime.None? && t.ops == map[1 := Lookup(ToConnect), 3 := Lookup(ToConnect)]
    ensures Fails(d, [1, 3], steps)
  {
    var answered := Continues(LookupDone(1, 0));
    var ops := map[1 := Closing(ToConnect, 0, false), 3 := Lookup(ToConnect)];
    var d1 := d.(target := CloseRuntime(t).(ops := ops));
    steps := FirstInstalls(d1.target, d1);
    assert t.ops[1 := Closing(ToConnect, 0, false)] == ops;
    assert !Restless(d);
    FailsBefore(d, [1, 3], answered, d1, [3], steps);
    steps := [answered] + steps;
  }

  /** The first connect behind the removal begins. */
  lemma FirstBegins(t: Target, d: Desk) returns (steps: seq<Step>)
    requires d == Desk(false, t, Behind(false, None, {0}, [])) && t.clients == [] && t.runtime.None? && t.ops == map[]
    ensures Fails(d, [], steps)
  {
    var d1 := Desk(false, t.(ops := map[1 := Lookup(ToConnect)]), Behind(true, None, {0}, []));
    steps := NewChainBegins(d1.target, d1);
    assert Ripe(d, 1);
    assert t.ops[1 := Lookup(ToConnect)] == d1.target.ops && Start(d.line, 1) == d1.line;
    FailsBefore(d, [], Starts(1), d1, [1], steps);
    steps := [Starts(1)] + steps;
  }

  /** The removal ends, which deletes the entry. */
  lemma RemovalEnds(t: Target, d: Desk) returns (steps: seq<Step>)
    requires d == Desk(false, t, Behind(false, Some(2), {}, [])) && t.clients == [] && t.runtime.None?
    requires t.ops == map[0 := Removing]
    ensures Fails(d, [], steps)
  {
    var closed := Continues(CloseDone(0, true));
    var d1 := Desk(false, t.(ops := map[], states := []), Behind(false, None, {0}, []));
    steps := FirstBegins(d1.target, d1);
    assert t.ops - {0} == map[];
    assert !Restless(d);
    FailsBefore(d, [], closed, d1, [], steps);
    steps := [closed] + steps;
  }

  /**
   With a registry that answers in order two hasty connects are enough: a removal begins, two connects are requested
   behind it, and after them everything is done with care.
   */
  lemma TwoHastyConnectsFailInOrder() returns (more: seq<Step>)
    ensures Strays(Opened(false), [],
                   [Requests(Remove)] + ([Starts(0)] + ([Requests(Connect)] + ([Requests(Connect)] + more))))
    ensures Careful(Steps(Opened(false), [Requests(Remove), Starts(0), Requests(Connect), Requests(Connect)]), more)
  {
    var d0 := Opened(false);
    var d1 := StepOf(d0, Requests(Remove));
    var d2 := StepOf(d1, Starts(0));
    RemovalBegins(d0, d1, d2);
    var d3, d4;
    d3, d4, more := TwoBehind(d2);
    var rest := [Requests(Connect)] + ([Requests(Connect)] + more);
    StraysBefore(d1, [], Starts(0), d2, [], rest);
    StraysBefore(d0, [], Requests(Remove), d1, [], [Starts(0)] + rest);
    var four := [Requests(Remove), Starts(0), Requests(Connect), Requests(Connect)];
    assert four[1..][1..] == [Requests(Connect), Requests(Connect)];
    assert Steps(d0, four) == d4;
  }

  lemma TwoBehind(d2: Desk) returns (d3: Desk, d4: Desk, more: seq<Step>)
    requires d2 == RemovalBegun()
    ensures d3 == StepOf(d2, Requests(Connect)) && d4 == StepOf(d3, Requests(Connect)) && Careful(d4, more)
    ensures Strays(d2, [], [Requests(Connect)] + ([Requests(Connect)] + more))
  {
    d3 := d2.(line := Ask(d2.line, Connect));
    d4 := d3.(line := Ask(d3.line, Connect));
    assert d4.line == Behind(false, Some(2), {}, []);
    more := RemovalEnds(d4.target, d4);
    StraysBefore(d3, [], Requests(Connect), d4, [], more);
    StraysBefore(d2, [], Requests(Connect), d3, [], [Requests(Connect)] + more);
  }
}
