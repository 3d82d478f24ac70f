/**
 What a hasty request leads to: after a connect or a pairing that is requested while a removal of the same remote target
 is outstanding, a client can be installed over another one, which is then never closed. All runs here are ones the code
 can make; the registry may answer the lookups of different operations in any order.
 */
module TargetOverlaps {
  import opened Wrappers
  import opened TargetModel
  import opened TargetTheorems
  import opened TargetQueues
  import opened TargetQueueTheorems

  // ---- careful steps that can happen ----

  /** Some careful steps that can happen lead from one state to the other. */
  ghost predicate Reaches(d: Desk, d': Desk) {
    exists steps :: Careful(d, steps) && Real(d, steps) && Steps(d, steps) == d'
  }

  predicate Allowed(d: Desk, s: Step) {
    Possible(d, s) && !(s.Requests? && Hasty(d, s.kind))
  }

  lemma {:induction false} StepsThen(d: Desk, steps: seq<Step>, s: Step)
    requires Careful(d, steps) && Real(d, steps) && Allowed(Steps(d, steps), s)
    ensures Careful(d, steps + [s]) && Real(d, steps + [s]) && Steps(d, steps + [s]) == StepOf(Steps(d, steps), s)
    decreases |steps|
  {
    if steps == [] {
      assert steps + [s] == [s] && [s][1..] == [];
      assert Steps(StepOf(d, s), []) == StepOf(d, s);
    } else {
      assert (steps + [s])[1..] == steps[1..] + [s];
      StepsThen(StepOf(d, steps[0]), steps[1..], s);
    }
  }

  lemma ReachesSelf(d: Desk)
    ensures Reaches(d, d)
  {
    assert Careful(d, []) && Real(d, []) && Steps(d, []) == d;
  }

  lemma ReachesThen(d0: Desk, d: Desk, s: Step)
    requires Reaches(d0, d) && Allowed(d, s)
    ensures Reaches(d0, StepOf(d, s))
  {
    var steps :| Careful(d0, steps) && Real(d0, steps) && Steps(d0, steps) == d;
    StepsThen(d0, steps, s);
  }

  /** What every step keeps, hasty or not. */
  ghost predicate Sound(d: Desk) {
    LineOk(d.line) && Linked(d) && TargetTheorems.Inv(d.target)
  }

  lemma StepKeepsSound(d: Desk, s: Step)
    requires Sound(d)
    ensures Sound(StepOf(d, s))
  {
    match s
    case Requests(kind) => AskKeepsLine(d.line, kind);
    case Starts(op) =>
      if CanStart(d.line, op) {
        StartedLinks(d, op);
        BegunKeepsInv(d.target, d.local, d.line.requests[op].kind, op);
      }
    case Continues(e) =>
      if IsContinuation(e) && e.op in d.target.ops {
        ContinuedLinks(d, e);
        ContinueKeeps(d.target, e);
      }
    case Hears(e) =>
      if IsCallback(e) {
        HeardKeeps(d.target, e);
        HeardKeepsOps(d.target, e);
      }
  }

  /** A remote target in a sound state that some careful steps reach. */
  ghost predicate Live(d0: Desk, d: Desk) {
    Reaches(d0, d) && Sound(d) && !d.local
  }

  lemma LiveThen(d0: Desk, d: Desk, s: Step)
    requires Live(d0, d) && Allowed(d, s)
    ensures Live(d0, StepOf(d, s))
  {
    ReachesThen(d0, d, s);
    StepKeepsSound(d, s);
  }

  // ---- whatever is in flight comes to an end ----

  /** An operation at an await comes nearer to its end: lookups and pairings fail, what is closed has closed. */
  function Ending(t: Target, op: nat): Event
    requires op in t.ops
  {
    match t.ops[op]
    case Lookup(_) => OpFailed(op)
    case PairLookup => OpFailed(op)
    case Pairing(_) => OpFailed(op)
    case PairConnecting(waits) =>
      if !waits || Installed(t) in {Some(Ready), Some(NeedsPairing)} then ConnectDone(op) else OpFailed(op)
    case _ => CloseDone(op, false)
  }

  function StageRank(stage: Stage): nat {
    match stage
    case Closing(_, _, _) => 3
    case PairConnecting(_) => 2
    case PairClosing => 2
    case _ => 1
  }

  function Rank(d: Desk, k: nat): nat {
    if k in d.line.settled then 0
    else if k in d.target.ops then StageRank(d.target.ops[k])
    else 4
  }

  /** How far the first requests are from their ends. */
  function Work(d: Desk, n: nat): nat {
    if n == 0 then 0 else Work(d, n - 1) + Rank(d, n - 1)
  }

  lemma {:induction false} WorkStays(d: Desk, d': Desk, n: nat)
    requires forall i :: 0 <= i < n ==> Rank(d', i) == Rank(d, i)
    ensures Work(d', n) == Work(d, n)
  {
    if n > 0 { WorkStays(d, d', n - 1); }
  }

  lemma {:induction false} WorkDrops(d: Desk, d': Desk, n: nat, k: nat)
    requires k < n && Rank(d', k) < Rank(d, k)
    requires forall i :: 0 <= i < n && i != k ==> Rank(d', i) == Rank(d, i)
    ensures Work(d', n) < Work(d, n)
  {
    if k == n - 1 { WorkStays(d, d', n - 1); } else { WorkDrops(d, d', n - 1, k); }
  }

  /** One operation moved, and nothing else did. */
  ghost predicate Moves(d: Desk, d': Desk, op: nat) {
    && |d'.line.requests| == |d.line.requests|
    && (forall k :: 0 <= k < |d.line.requests| ==>
          && d'.line.requests[k].kind == d.line.requests[k].kind && d'.line.requests[k].after == d.line.requests[k].after
          && (k != op ==> d'.line.requests[k] == d.line.requests[k]))
    && (forall k :: k != op ==> (k in d'.line.settled <==> k in d.line.settled))
    && (forall k :: k != op ==> (k in d'.target.ops <==> k in d.target.ops)
                                && (k in d.target.ops ==> d'.target.ops[k] == d.target.ops[k]))
    && (d'.line.tail == d.line.tail || d'.line.tail.None?)
  }

  /** The first await of an operation on a remote target. */
  function FirstStage(t: Target, kind: Kind): Stage {
    match kind
    case Connect => Lookup(ToConnect)
    case Pair => PairLookup
    case Disconnect => Disconnecting(t.runtime.Some?)
    case Remove => Removing
  }

  lemma StartMoves(d: Desk, op: nat)
    requires Sound(d) && !d.local && CanStart(d.line, op)
    ensures var d' := StepOf(d, Starts(op));
            && Moves(d, d', op) && d'.line.settled == d.line.settled && d'.line.tail == d.line.tail
            && d'.line.requests[op].begun && op in d'.target.ops
            && d'.target.ops[op] == FirstStage(d.target, d.line.requests[op].kind) && op !in d.target.ops
  {
    assert op !in d.target.ops;
    BegunStage(d.target, d.line.requests[op].kind, op);
  }

  lemma BegunStage(t: Target, kind: Kind, op: nat)
    requires op !in t.ops
    ensures Begun(t, false, kind, op).ops == t.ops[op := FirstStage(t, kind)]
  {
  }

  lemma EndingMoves(t: Target, op: nat)
    requires op in t.ops
    ensures var t' := Continue(t, Ending(t, op));
            op in t'.ops ==> StageRank(t'.ops[op]) < StageRank(t.ops[op]) && !t.ops[op].Removing?
  {
  }

  lemma EndMoves(d: Desk, op: nat)
    requires Sound(d) && op in d.target.ops
    ensures var d' := StepOf(d, Continues(Ending(d.target, op)));
            && Moves(d, d', op) && d'.line.requests == d.line.requests && Rank(d', op) < Rank(d, op)
            && (d.line.requests[op].kind == Remove ==> d'.line.tail.None? && op in d'.line.settled)
  {
    EndingMoves(d.target, op);
    ContinueMoves(d.target, Ending(d.target, op));
  }

  /**
   A hasty request is the last one: it stands at its first await if it has begun, and as long as the entry is there a
   removal before it is outstanding.
   */
  ghost predicate Winding(d: Desk, j: nat) {
    && |d.line.requests| == j + 1 && Opening(d.line.requests[j].kind) && j !in d.line.settled
    && (d.line.requests[j].begun ==> j in d.target.ops && d.target.ops[j] == FirstStage(d.target, d.line.requests[j].kind))
    && (d.line.tail.None? || exists r :: 0 <= r < j && Outstanding(d.line, r))
  }

  function Left(d: Desk, j: nat): nat
    requires j < |d.line.requests|
  {
    Work(d, j) + if d.line.requests[j].begun then 0 else 1
  }

  /** An attempt that is under way, with a client that can still fail. */
  predicate Pending(t: Target, op: nat) {
    op in t.ops && t.ops[op] == PairConnecting(true) && Installed(t) in {Some(Connecting), Some(Handshaking), Some(ReconnectWait)}
  }

  lemma EndingMayCome(t: Target, op: nat)
    requires op in t.ops && !Pending(t, op)
    ensures AttemptMay(t, Ending(t, op))
  {
    if Installed(t).Some? {
      var s := Installed(t).value;
      assert s.Ready? || s.NeedsPairing? || s.Connecting? || s.Handshaking? || s.ReconnectWait? || s.Fatal? || s.Other?;
    }
  }

  lemma EndDrops(d0: Desk, d: Desk, j: nat, op: nat) returns (d': Desk)
    requires Live(d0, d) && Winding(d, j) && op < j && op in d.target.ops && !Pending(d.target, op)
    requires !Restless(d) || Ripe(d, op)
    ensures Live(d0, d') && Winding(d', j) && Left(d', j) < Left(d, j)
  {
    var s := Continues(Ending(d.target, op));
    EndingMayCome(d.target, op);
    LiveThen(d0, d, s);
    EndMoves(d, op);
    d' := StepOf(d, s);
    WorkDrops(d, d', j, op);
    if r :| 0 <= r < j && Outstanding(d.line, r) { assert r != op ==> Outstanding(d'.line, r); }
  }

  /** The client of an attempt fails, and with it the attempt. */
  lemma FailDrops(d0: Desk, d: Desk, j: nat, op: nat) returns (d': Desk)
    requires Live(d0, d) && Winding(d, j) && op < j && Pending(d.target, op) && !Restless(d)
    ensures Live(d0, d') && Winding(d', j) && Left(d', j) < Left(d, j)
  {
    var s := Hears(ClientMoved(d.target.runtime.value, Fatal));
    LiveThen(d0, d, s);
    d' := StepOf(d, s);
    WorkStays(d, d', j);
    d' := EndDrops(d0, d', j, op);
  }

  lemma StartDrops(d0: Desk, d: Desk, j: nat, op: nat) returns (d': Desk)
    requires Live(d0, d) && Winding(d, j) && CanStart(d.line, op)
    ensures Live(d0, d') && Winding(d', j) && Left(d', j) < Left(d, j)
  {
    LiveThen(d0, d, Starts(op));
    StartMoves(d, op);
    d' := StepOf(d, Starts(op));
    if op < j { WorkDrops(d, d', j, op); } else { WorkStays(d, d', j); }
    if r :| 0 <= r < j && Outstanding(d.line, r) { assert Outstanding(d'.line, r); }
  }

  /** In a state of rest the first request that has not settled is at an await. */
  lemma FirstIsInFlight(d: Desk, k: nat)
    requires Sound(d) && !Restless(d) && k < |d.line.requests| && k !in d.line.settled
    requires forall i :: 0 <= i < k ==> i in d.line.settled
    ensures k in d.target.ops
  {
    assert !Ripe(d, k);
  }

  function FirstUnsettled(l: Line, j: nat): (k: nat)
    ensures k <= j && forall i :: 0 <= i < k ==> i in l.settled
    ensures k < j ==> k !in l.settled
  {
    if j == 0 then 0
    else
      var k := FirstUnsettled(l, j - 1);
      if k < j - 1 || j - 1 !in l.settled then k else j
  }

  /** Everything before the hasty request ends, the entry is deleted, and the request stands at its first await. */
  lemma {:induction false} WindDown(d0: Desk, d: Desk, j: nat) returns (d': Desk)
    requires Live(d0, d) && Winding(d, j)
    ensures Live(d0, d') && Winding(d', j) && !Restless(d') && forall k :: 0 <= k < j ==> k in d'.line.settled
    decreases Left(d, j)
  {
    var k := FirstUnsettled(d.line, j);
    if Restless(d) {
      var op: nat :| op < |d.line.requests| && Ripe(d, op);
      if CanStart(d.line, op) { d' := StartDrops(d0, d, j, op); } else { d' := EndDrops(d0, d, j, op); }
      d' := WindDown(d0, d', j);
    } else if k < j {
      FirstIsInFlight(d, k);
      if Pending(d.target, k) { d' := FailDrops(d0, d, j, k); } else { d' := EndDrops(d0, d, j, k); }
      d' := WindDown(d0, d', j);
    } else {
      d' := d;
    }
  }

  // ---- two clients overlap ----

  /** Nothing is in flight but one operation, which really waits, and a new request can start at once. */
  ghost predicate Resting(d: Desk, j: nat) {
    && j < |d.line.requests| && d.line.requests[j].begun && Opening(d.line.requests[j].kind)
    && (forall k :: 0 <= k < |d.line.requests| && k != j ==> k in d.line.settled)
    && (j in d.target.ops ==> !Immediate(d.target, d.target.ops[j]) && !d.target.ops[j].PairConnecting?)
    && (d.line.tail.Some? ==> d.line.tail.value in d.line.settled)
  }

  lemma RestingIsCalm(d: Desk, j: nat)
    requires Sound(d) && Resting(d, j)
    ensures !Restless(d) && forall kind :: !Hasty(d, kind)
  {
  }

  /** The installed client, if any, is not one that a connect with these capabilities would use. */
  predicate Useless(t: Target, capabilities: Capabilities) {
    t.runtime.Some? && t.runtime.value < |t.clients| && t.clients[t.runtime.value].capabilities == capabilities ==>
      t.clients[t.runtime.value].state == Fatal || t.clients[t.runtime.value].state == Other
  }

  lemma LookupCloses(t: Target, op: OpId, goal: Goal, capabilities: Capabilities)
    requires op in t.ops && t.ops[op] == Lookup(goal) && Useless(t, capabilities)
    ensures Continue(t, LookupDone(op, capabilities))
            == Suspend(CloseRuntime(t), op, Closing(goal, capabilities, t.runtime.Some?))
  {
  }

  /** After another connect was requested, nothing but that connect can be ripe. */
  lemma OtherIsRipe(d: Desk, d': Desk, j: nat, stage: Stage)
    requires Sound(d) && Resting(d, j) && d'.line == Start(Ask(d.line, Connect), |d.line.requests|)
    requires d'.target.ops == d.target.ops[|d.line.requests| := stage]
    ensures Restless(d') ==> Ripe(d', |d.line.requests|)
  {
  }

  lemma NewIsFree(d: Desk, j: nat)
    requires Sound(d) && Resting(d, j)
    ensures CanStart(Ask(d.line, Connect), |d.line.requests|) && |d.line.requests| !in d.target.ops
  {
  }

  /** Another connect is requested and reads its record. */
  lemma ConnectAsks(d0: Desk, d: Desk, j: nat) returns (d': Desk)
    requires Live(d0, d) && Resting(d, j)
    ensures var b := |d.line.requests|;
            && Live(d0, d') && b !in d.target.ops && d'.target == Suspend(d.target, b, Lookup(ToConnect))
            && d'.line == Start(Ask(d.line, Connect), b) && !Restless(d')
  {
    var b := |d.line.requests|;
    RestingIsCalm(d, j);
    NewIsFree(d, j);
    LiveThen(d0, d, Requests(Connect));
    var d1 := StepOf(d, Requests(Connect));
    LiveThen(d0, d1, Starts(b));
    d' := StepOf(d1, Starts(b));
    OtherIsRipe(d, d', j, Lookup(ToConnect));
  }

  /** A connect that finds no client of use closes what is there. */
  lemma ConnectCloses(d0: Desk, d: Desk, j: nat, capabilities: Capabilities) returns (d': Desk)
    requires Live(d0, d) && Resting(d, j) && Useless(d.target, capabilities)
    ensures var b, waits := |d.line.requests|, d.target.runtime.Some?;
            && Live(d0, d') && d'.line == Start(Ask(d.line, Connect), b)
            && d'.target == CloseRuntime(d.target).(ops := d.target.ops[b := Closing(ToConnect, capabilities, waits)])
  {
    var b := |d.line.requests|;
    var d1 := ConnectAsks(d0, d, j);
    var s := Continues(LookupDone(b, capabilities));
    LookupCloses(d1.target, b, ToConnect, capabilities);
    LiveThen(d0, d1, s);
    d' := StepOf(d1, s);
    SuspendedTwice(d.target, b, Lookup(ToConnect), Closing(ToConnect, capabilities, d.target.runtime.Some?));
  }

  lemma SuspendedTwice(t: Target, op: nat, before: Stage, after: Stage)
    ensures Suspend(CloseRuntime(Suspend(t, op, before)), op, after) == CloseRuntime(t).(ops := t.ops[op := after])
  {
    assert t.ops[op := before][op := after] == t.ops[op := after];
  }

  lemma RestsAgain(d: Desk, d': Desk, j: nat)
    requires Sound(d) && Resting(d, j) && d'.target.ops == d.target.ops
    requires var b := |d.line.requests|; d'.line == Settle(Start(Ask(d.line, Connect), b), b, false)
    ensures Resting(d', j)
  {
  }

  /** A connect that finds no client of use installs a new one, and leaves what else is in flight alone. */
  lemma ConnectInstalls(d0: Desk, d: Desk, j: nat, capabilities: Capabilities) returns (d': Desk)
    requires Live(d0, d) && Resting(d, j) && Useless(d.target, capabilities)
    ensures Live(d0, d') && Resting(d', j) && d'.target == Install(CloseRuntime(d.target), capabilities, true)
  {
    var b, stage := |d.line.requests|, Closing(ToConnect, capabilities, d.target.runtime.Some?);
    assert b !in d.target.ops;
    var d1 := ConnectCloses(d0, d, j, capabilities);
    OtherIsRipe(d, d1, j, stage);
    d' := CloseInstalls(d0, d1, b, ToConnect, capabilities, d.target.runtime.Some?);
    InstalledBeside(d.target, b, stage, capabilities);
    RestsAgain(d, d', j);
  }

  lemma InstalledBeside(t: Target, b: nat, stage: Stage, capabilities: Capabilities)
    requires b !in t.ops
    ensures Finish(Install(CloseRuntime(t).(ops := t.ops[b := stage]), capabilities, true), b)
            == Install(CloseRuntime(t), capabilities, true)
  {
    assert t.ops[b := stage] - {b} == t.ops;
  }

  /** The old client has closed, or there was none, and a new one is installed. */
  lemma CloseInstalls(d0: Desk, d: Desk, op: nat, goal: Goal, capabilities: Capabilities, waits: bool) returns (d': Desk)
    requires Live(d0, d) && op in d.target.ops && d.target.ops[op] == Closing(goal, capabilities, waits)
    requires !Restless(d) || Ripe(d, op)
    ensures Live(d0, d') && d'.target == Connectable(Install(d.target, capabilities, true), op, goal, true)
    ensures d'.line == if goal == ToConnect then Settle(d.line, op, false) else d.line
  {
    LiveThen(d0, d, Continues(CloseDone(op, true)));
    d' := StepOf(d, Continues(CloseDone(op, true)));
  }

  /** The installed client makes a move. */
  lemma Turns(d0: Desk, d: Desk, j: nat, c: ClientId, state: ClientState) returns (d': Desk)
    requires Live(d0, d) && Resting(d, j) && d.target.runtime == Some(c) && Legal(d.target.clients[c].state, state)
    ensures Live(d0, d') && Resting(d', j) && d'.target.ops == d.target.ops && d'.target.runtime == Some(c)
    ensures d'.target.clients == d.target.clients[c := d.target.clients[c].(state := state)]
  {
    RestingIsCalm(d, j);
    LiveThen(d0, d, Hears(ClientMoved(c, state)));
    d' := StepOf(d, Hears(ClientMoved(c, state)));
  }

  /** A new client connects and gets ready. */
  lemma GetsReady(d0: Desk, d: Desk, j: nat, c: ClientId) returns (d': Desk)
    requires Live(d0, d) && Resting(d, j) && d.target.runtime == Some(c) && d.target.clients[c].state == Other
    ensures Live(d0, d') && Resting(d', j) && d'.target.ops == d.target.ops && d'.target.runtime == Some(c)
    ensures d'.target.clients == d.target.clients[c := d.target.clients[c].(state := Ready)]
  {
    d' := Turns(d0, d, j, c, Connecting);
    d' := Turns(d0, d', j, c, Handshaking);
    d' := Turns(d0, d', j, c, Ready);
  }

  /** An operation that waited for its lookup finds a client that failed, and waits for it to close. */
  lemma LookupMeetsFailed(d0: Desk, d: Desk, j: nat, goal: Goal, capabilities: Capabilities) returns (d': Desk)
    requires Live(d0, d) && Resting(d, j) && j in d.target.ops && d.target.ops[j] == Lookup(goal)
    requires d.target.runtime.Some? && Useless(d.target, capabilities)
    ensures Live(d0, d') && Resting(d', j)
    ensures d'.target == Suspend(CloseRuntime(d.target), j, Closing(goal, capabilities, true))
  {
    RestingIsCalm(d, j);
    LookupCloses(d.target, j, goal, capabilities);
    LiveThen(d0, d, Continues(LookupDone(j, capabilities)));
    d' := StepOf(d, Continues(LookupDone(j, capabilities)));
  }

  /** A connect on the new chain installs a client, which gets ready and then fails. */
  lemma FirstFails(d0: Desk, d: Desk, j: nat, capabilities: Capabilities) returns (d': Desk)
    requires Live(d0, d) && Resting(d, j) && Useless(d.target, capabilities)
    ensures Live(d0, d') && Resting(d', j) && d'.target.ops == d.target.ops
    ensures d'.target.runtime.Some? && Useless(d'.target, capabilities)
  {
    var x := |d.target.clients|;
    d' := ConnectInstalls(d0, d, j, capabilities);
    d' := GetsReady(d0, d', j, x);
    d' := Turns(d0, d', j, x, Fatal);
  }

  /** The close is over: a client is installed over the one that a connect has installed in the meantime. */
  lemma InstallsOver(d0: Desk, d: Desk, j: nat, goal: Goal, capabilities: Capabilities, c: ClientId) returns (d': Desk)
    requires Live(d0, d) && Resting(d, j) && j in d.target.ops && d.target.ops[j] == Closing(goal, capabilities, true)
    requires d.target.runtime == Some(c)
    ensures Live(d0, d') && Abandoned(d'.target, c)
  {
    RestingIsCalm(d, j);
    d' := CloseInstalls(d0, d, j, goal, capabilities, true);
  }

  /** An operation at the lookup of connectNow, with the entry of its queue gone. */
  lemma LookupOverlaps(d0: Desk, d: Desk, j: nat, goal: Goal, capabilities: Capabilities) returns (d': Desk, c: ClientId)
    requires Live(d0, d) && Resting(d, j) && j in d.target.ops && d.target.ops[j] == Lookup(goal)
    requires Useless(d.target, capabilities)
    ensures Live(d0, d') && Abandoned(d'.target, c)
  {
    var d1 := FirstFails(d0, d, j, capabilities);
    var d2 := LookupMeetsFailed(d0, d1, j, goal, capabilities);
    c := |d2.target.clients|;
    var d3 := ConnectInstalls(d0, d2, j, capabilities);
    d' := InstallsOver(d0, d3, j, goal, capabilities, c);
  }

  // ---- the two hasty requests ----

  lemma SomeAreUseless(t: Target) returns (capabilities: Capabilities)
    ensures Useless(t, capabilities)
  {
    capabilities := if t.runtime.Some? && t.runtime.value < |t.clients|
                    then t.clients[t.runtime.value].capabilities + 1 else 0;
  }

  /** A pairing that finds a client with other capabilities waits for it to close. */
  lemma PairCloses(d0: Desk, d: Desk, j: nat, capabilities: Capabilities) returns (d': Desk)
    requires Live(d0, d) && Resting(d, j) && j in d.target.ops && d.target.ops[j] == PairLookup
    requires d.target.runtime.Some? && d.target.clients[d.target.runtime.value].capabilities != capabilities
    ensures Live(d0, d') && Resting(d', j) && d'.target == Suspend(CloseRuntime(d.target), j, PairClosing)
  {
    RestingIsCalm(d, j);
    LiveThen(d0, d, Continues(LookupDone(j, capabilities)));
    d' := StepOf(d, Continues(LookupDone(j, capabilities)));
  }

  /** Then it connects anew. */
  lemma PairLooksUp(d0: Desk, d: Desk, j: nat) returns (d': Desk)
    requires Live(d0, d) && Resting(d, j) && j in d.target.ops && d.target.ops[j] == PairClosing
    ensures Live(d0, d') && Resting(d', j) && d'.target == Suspend(d.target, j, Lookup(ToPair))
  {
    RestingIsCalm(d, j);
    LiveThen(d0, d, Continues(CloseDone(j, true)));
    d' := StepOf(d, Continues(CloseDone(j, true)));
  }

  lemma PairOverlaps(d0: Desk, d: Desk, j: nat) returns (d': Desk, c: ClientId)
    requires Live(d0, d) && Resting(d, j) && j in d.target.ops && d.target.ops[j] == PairLookup
    ensures Live(d0, d') && Abandoned(d'.target, c)
  {
    var capabilities := SomeAreUseless(d.target);
    var d1 := ConnectInstalls(d0, d, j, capabilities);
    var d2 := GetsReady(d0, d1, j, |d.target.clients|);
    var d3 := PairCloses(d0, d2, j, capabilities + 1);
    var d4 := PairLooksUp(d0, d3, j);
    d', c := LookupOverlaps(d0, d4, j, ToPair, capabilities);
  }

  lemma WoundDownRests(d: Desk, j: nat)
    requires Sound(d) && Winding(d, j) && !Restless(d) && forall k :: 0 <= k < j ==> k in d.line.settled
    ensures Resting(d, j) && j in d.target.ops && d.target.ops[j] == FirstStage(d.target, d.line.requests[j].kind)
  {
    FirstIsInFlight(d, j);
  }

  /** After a hasty request some careful steps lead to a client that is replaced without being closed. */
  lemma HastyRequestCanAbandonAClient(d: Desk, kind: Kind) returns (d': Desk, c: ClientId)
    requires Sound(d) && Hasty(d, kind)
    ensures Reaches(StepOf(d, Requests(kind)), d') && Abandoned(d'.target, c)
  {
    var d0, j := StepOf(d, Requests(kind)), |d.line.requests|;
    ReachesSelf(d0);
    StepKeepsSound(d, Requests(kind));
    var r: nat :| r < |d.line.requests| && Outstanding(d.line, r);
    assert Outstanding(d0.line, r);
    var d1 := WindDown(d0, d0, j);
    WoundDownRests(d1, j);
    if d1.line.requests[j].kind == Connect {
      var capabilities := SomeAreUseless(d1.target);
      d', c := LookupOverlaps(d0, d1, j, ToConnect, capabilities);
    } else {
      d', c := PairOverlaps(d0, d1, j);
    }
  }

  /** However one goes on with care, every client that is replaced is closed. */
  ghost predicate Safe(d: Desk) {
    forall more :: Careful(d, more) && Real(d, more) ==> AllClosed(Steps(d, more).target)
  }

  lemma CarefulIsSafe(d: Desk)
    requires DeskInv(d)
    ensures Safe(d)
  {
    forall more | Careful(d, more) ensures AllClosed(Steps(d, more).target) { RunKeeps(d, more); }
  }

  lemma HastyIsNotSafe(d: Desk, kind: Kind)
    requires Sound(d) && Hasty(d, kind)
    ensures !Safe(StepOf(d, Requests(kind)))
  {
    var d0 := StepOf(d, Requests(kind));
    var d', c := HastyRequestCanAbandonAClient(d, kind);
    var more :| Careful(d0, more) && Real(d0, more) && Steps(d0, more) == d';
    assert !AllClosed(Steps(d0, more).target);
  }

  /**
   The exact condition: after a careful run, a request leaves every client to be closed when it is replaced, as long as
   one goes on with care, if and only if it is not a connect or a pairing while a removal is outstanding.
   */
  lemma ClientsAreClosedExactlyWhenCareful(local: bool, steps: seq<Step>, kind: Kind)
    requires Careful(Opened(local), steps)
    ensures var d := Steps(Opened(local), steps); Safe(StepOf(d, Requests(kind))) <==> !Hasty(d, kind)
  {
    var d := Steps(Opened(local), steps);
    OpenedHolds(local);
    RunKeeps(Opened(local), steps);
    if Hasty(d, kind) {
      HastyIsNotSafe(d, kind);
    } else {
      StepKeeps(d, Requests(kind));
      CarefulIsSafe(StepOf(d, Requests(kind)));
    }
  }

  /** Nothing that happens later closes an abandoned client. */
  lemma {:induction false} NeverClosed(d: Desk, steps: seq<Step>, c: ClientId)
    requires Abandoned(d.target, c)
    ensures Abandoned(Steps(d, steps).target, c)
    decreases |steps|
  {
    if steps != [] {
      StepLeavesOpen(d, steps[0], c);
      NeverClosed(StepOf(d, steps[0]), steps[1..], c);
    }
  }

  lemma StepLeavesOpen(d: Desk, s: Step, c: ClientId)
    requires Abandoned(d.target, c)
    ensures Abandoned(StepOf(d, s).target, c)
  {
    match s
    case Requests(_) =>
    case Starts(op) =>
      StaysAbandoned(d.target, BeginConnect(op), c);
      StaysAbandoned(d.target, BeginPair(op, d.local), c);
      StaysAbandoned(d.target, BeginDisconnect(op), c);
      StaysAbandoned(d.target, BeginRemove(op), c);
    case Continues(e) => StaysAbandoned(d.target, e, c);
    case Hears(e) => StaysAbandoned(d.target, e, c);
  }
}
