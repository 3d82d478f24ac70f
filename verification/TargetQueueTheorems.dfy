/**
 The operations of one target one after the other: as long as no connect or pairing is requested while a removal of the
 same remote target is outstanding, one client is installed at a time and every earlier one is closed.
 */
module TargetQueueTheorems {
  import opened Wrappers
  import opened TargetModel
  import opened TargetTheorems
  import opened TargetQueues

  // ---- the chains ----

  /** Requests are chained one behind the other, a new chain beginning where the entry was missing. */
  ghost predicate Chained(l: Line) {
    && (forall k :: 0 <= k < |l.requests| && l.requests[k].after.Some? ==> l.requests[k].after.value == k - 1)
    && (l.tail.Some? ==> l.tail.value == |l.requests| - 1)
  }

  /** Only what has begun settles, and what has begun waited for its predecessor. */
  ghost predicate Marked(l: Line) {
    && (forall k :: k in l.settled ==> 0 <= k < |l.requests| && l.requests[k].begun)
    && (forall k :: 0 <= k < |l.requests| && l.requests[k].begun && l.requests[k].after.Some? ==>
          l.requests[k].after.value in l.settled)
  }

  ghost predicate LineOk(l: Line) {
    Chained(l) && Marked(l)
  }

  lemma AskKeepsLine(l: Line, kind: Kind)
    requires LineOk(l)
    ensures LineOk(Ask(l, kind))
  {
  }

  lemma StartKeepsLine(l: Line, op: nat)
    requires LineOk(l) && CanStart(l, op)
    ensures LineOk(Start(l, op))
  {
  }

  lemma SettleKeepsLine(l: Line, op: nat, forget: bool)
    requires LineOk(l) && op < |l.requests| && l.requests[op].begun
    ensures LineOk(Settle(l, op, forget))
  {
  }

  // ---- one opening operation after the other ----

  /** Every connect and pairing among the first requests has settled. */
  ghost predicate OpenedBefore(l: Line, k: int) {
    forall i :: 0 <= i < k && i < |l.requests| && Opening(l.requests[i].kind) ==> i in l.settled
  }

  ghost predicate Ordered(l: Line) {
    && (forall k :: 0 <= k < |l.requests| && (l.requests[k].begun || l.requests[k].after.None?) ==> OpenedBefore(l, k))
    && (l.tail.None? ==> OpenedBefore(l, |l.requests|))
  }

  /** No connect or pairing was requested while a removal was outstanding. */
  ghost predicate Guarded(l: Line) {
    forall r, j :: 0 <= r < j < |l.requests| && l.requests[r].kind == Remove && Opening(l.requests[j].kind) ==>
      r in l.settled
  }

  lemma AskKeepsOrder(l: Line, kind: Kind)
    requires LineOk(l) && Ordered(l)
    ensures Ordered(Ask(l, kind))
  {
    var l' := Ask(l, kind);
    forall k | 0 <= k < |l'.requests| && (l'.requests[k].begun || l'.requests[k].after.None?) ensures OpenedBefore(l', k) {
      if k < |l.requests| { assert OpenedBefore(l, k); } else { assert OpenedBefore(l, |l.requests|); }
    }
  }

  lemma AskKeepsGuard(l: Line, kind: Kind)
    requires Guarded(l) && (Opening(kind) ==> forall r :: 0 <= r < |l.requests| ==> !Outstanding(l, r))
    ensures Guarded(Ask(l, kind))
  {
    var l' := Ask(l, kind);
    forall r, j | 0 <= r < j < |l'.requests| && l'.requests[r].kind == Remove && Opening(l'.requests[j].kind)
      ensures r in l'.settled
    {
      assert j == |l.requests| ==> !Outstanding(l, r);
    }
  }

  lemma StartKeepsOrder(l: Line, op: nat)
    requires LineOk(l) && Ordered(l) && CanStart(l, op)
    ensures Ordered(Start(l, op)) && (Guarded(l) ==> Guarded(Start(l, op)))
  {
    var l' := Start(l, op);
    assert OpenedBefore(l, op) by {
      if l.requests[op].after.Some? { assert OpenedBefore(l, op - 1); } else { assert OpenedBefore(l, op); }
    }
    forall k | 0 <= k < |l'.requests| && (l'.requests[k].begun || l'.requests[k].after.None?) ensures OpenedBefore(l', k) {
      assert OpenedBefore(l, k);
    }
    if l.tail.None? { assert OpenedBefore(l, |l.requests|); }
  }

  lemma SettleKeepsOrder(l: Line, op: nat, forget: bool)
    requires Ordered(l) && op < |l.requests| && l.requests[op].begun && op !in l.settled
    requires forget ==> l.requests[op].kind == Remove && Guarded(l)
    ensures Ordered(Settle(l, op, forget)) && (Guarded(l) ==> Guarded(Settle(l, op, forget)))
  {
    var l' := Settle(l, op, forget);
    forall k | 0 <= k < |l.requests| && (l.requests[k].begun || l.requests[k].after.None?) ensures OpenedBefore(l', k) {
      assert OpenedBefore(l, k);
    }
    if l'.tail.None? {
      assert OpenedBefore(l, op);
      if l.tail.None? { assert OpenedBefore(l, |l.requests|); }
    }
  }

  // ---- the queues and the operations in flight ----

  predicate Fits(kind: Kind, stage: Stage) {
    match stage
    case Disconnecting(_) => kind == Disconnect
    case Removing => kind == Remove
    case _ => Opening(kind)
  }

  /** In flight is what has begun and not settled, at an await of its kind. */
  ghost predicate Linked(d: Desk) {
    && (forall op :: op in d.target.ops <==>
          0 <= op < |d.line.requests| && d.line.requests[op].begun && op !in d.line.settled)
    && (forall op :: op in d.target.ops ==>
          op < |d.line.requests| && Fits(d.line.requests[op].kind, d.target.ops[op]) && (d.target.ops[op].Removing? ==> !d.local))
  }

  /** A continuation moves its own operation only, and within its kind. */
  lemma ContinueMoves(t: Target, e: Event)
    requires IsContinuation(e) && e.op in t.ops
    ensures var t' := Continue(t, e);
            && (forall op :: op != e.op ==> (op in t'.ops <==> op in t.ops) && (op in t.ops ==> t'.ops[op] == t.ops[op]))
            && (e.op in t'.ops ==> forall kind :: Fits(kind, t.ops[e.op]) ==> Fits(kind, t'.ops[e.op]))
            && (e.op in t'.ops && t'.ops[e.op].Removing? ==> t.ops[e.op].Removing?)
  {
  }

  lemma BegunMoves(t: Target, local: bool, kind: Kind, op: nat)
    requires op !in t.ops
    ensures var t' := Begun(t, local, kind, op);
            && (forall o :: o != op ==> (o in t'.ops <==> o in t.ops) && (o in t.ops ==> t'.ops[o] == t.ops[o]))
            && (op in t'.ops ==> Fits(kind, t'.ops[op]) && (t'.ops[op].Removing? ==> !local))
  {
  }

  lemma HeardKeepsOps(t: Target, e: Event)
    requires IsCallback(e)
    ensures Heard(t, e).ops == t.ops
  {
  }

  lemma StartedLinks(d: Desk, op: nat)
    requires LineOk(d.line) && Linked(d) && CanStart(d.line, op)
    ensures LineOk(Started(d, op).line) && Linked(Started(d, op))
  {
    BegunMoves(d.target, d.local, d.line.requests[op].kind, op);
    StartKeepsLine(d.line, op);
    SettleKeepsLine(Start(d.line, op), op, false);
  }

  lemma ContinuedLinks(d: Desk, e: Event)
    requires LineOk(d.line) && Linked(d) && IsContinuation(e) && e.op in d.target.ops
    ensures LineOk(Continued(d, e).line) && Linked(Continued(d, e))
  {
    ContinueMoves(d.target, e);
    SettleKeepsLine(d.line, e.op, d.target.ops[e.op].Removing? && e.CloseDone?);
  }

  // ---- one client at a time ----

  predicate Installing(stage: Stage) {
    !stage.Disconnecting? && !stage.Removing?
  }

  /** At most one operation in flight can install a client, none over an installed one, and no client is abandoned. */
  ghost predicate Serial(t: Target) {
    && (forall a, b :: a in t.ops && b in t.ops && Installing(t.ops[a]) && Installing(t.ops[b]) ==> a == b)
    && (forall op :: op in t.ops && t.ops[op].Closing? ==> t.runtime.None?)
    && AllClosed(t)
  }

  /** Every client that is not installed has been closed. */
  ghost predicate AllClosed(t: Target) {
    forall c :: 0 <= c < |t.clients| && t.runtime != Some(c) ==> t.clients[c].closed
  }

  ghost predicate Quiet(t: Target) {
    forall op :: op in t.ops ==> !Installing(t.ops[op])
  }

  lemma HeardSerial(t: Target, e: Event)
    requires Inv(t) && Serial(t) && IsCallback(e)
    ensures Serial(Heard(t, e))
  {
    if e.client < |t.clients| { CurrentIsInstalled(t, e.client); }
  }

  lemma LookedUpSerial(t: Target, op: OpId, goal: Goal, capabilities: Capabilities)
    requires Serial(t) && op in t.ops && t.ops[op] == Lookup(goal)
    ensures Serial(LookedUp(t, op, goal, capabilities))
  {
  }

  lemma AfterLookupSerial(t: Target, op: OpId, capabilities: Capabilities)
    requires Serial(t) && op in t.ops
    ensures Serial(AfterLookup(t, op, capabilities))
  {
    if t.ops[op].Lookup? { LookedUpSerial(t, op, t.ops[op].goal, capabilities); }
  }

  lemma AfterCloseSerial(t: Target, op: OpId, paired: bool)
    requires Serial(t) && op in t.ops
    ensures Serial(AfterClose(t, op, paired))
  {
  }

  lemma ContinueSerial(t: Target, e: Event)
    requires Serial(t) && IsContinuation(e) && e.op in t.ops
    ensures Serial(Continue(t, e))
  {
    match e
    case LookupDone(op, capabilities) => AfterLookupSerial(t, op, capabilities);
    case CloseDone(op, paired) => AfterCloseSerial(t, op, paired);
    case _ =>
  }

  lemma BegunSerial(t: Target, local: bool, kind: Kind, op: nat)
    requires Serial(t) && op !in t.ops && (Opening(kind) ==> Quiet(t))
    ensures Serial(Begun(t, local, kind, op))
  {
  }

  // ---- careful runs ----

  ghost predicate DeskInv(d: Desk) {
    && LineOk(d.line) && Ordered(d.line) && (d.local || Guarded(d.line)) && Linked(d)
    && TargetTheorems.Inv(d.target) && Serial(d.target)
  }

  lemma StartedKeeps(d: Desk, op: nat)
    requires DeskInv(d) && CanStart(d.line, op)
    ensures DeskInv(Started(d, op))
  {
    var kind := d.line.requests[op].kind;
    StartKeepsLine(d.line, op);
    StartKeepsOrder(d.line, op);
    StartedLinks(d, op);
    if Opening(kind) { NothingOpensBefore(d, op); }
    BegunSerial(d.target, d.local, kind, op);
    BegunKeepsInv(d.target, d.local, kind, op);
    SettleKeepsOrder(Start(d.line, op), op, false);
  }

  lemma BegunKeepsInv(t: Target, local: bool, kind: Kind, op: nat)
    requires TargetTheorems.Inv(t)
    ensures TargetTheorems.Inv(Begun(t, local, kind, op))
  {
    BeginKeeps(t, BeginConnect(op));
    BeginKeeps(t, BeginPair(op, local));
    BeginKeeps(t, BeginDisconnect(op));
    BeginKeeps(t, BeginRemove(op));
  }

  /** When an opening operation can start, no other one is in flight. */
  lemma NothingOpensBefore(d: Desk, op: nat)
    requires LineOk(d.line) && Ordered(d.line) && Linked(d) && CanStart(d.line, op) && Opening(d.line.requests[op].kind)
    ensures Quiet(d.target)
  {
    StartKeepsOrder(d.line, op);
    var l := Start(d.line, op);
    assert OpenedBefore(l, op);
    forall o | o in d.target.ops ensures !Installing(d.target.ops[o]) {
      NoneBeginsBehind(l, op, o);
    }
  }

  lemma NoneBeginsBehind(l: Line, op: nat, o: nat)
    requires Ordered(l) && op < |l.requests| && Opening(l.requests[op].kind) && op !in l.settled
    ensures op < o < |l.requests| ==> !l.requests[o].begun
  {
    assert op < o < |l.requests| && l.requests[o].begun ==> OpenedBefore(l, o);
  }

  lemma ContinuedKeeps(d: Desk, e: Event)
    requires DeskInv(d) && IsContinuation(e) && e.op in d.target.ops
    ensures DeskInv(Continued(d, e))
  {
    ContinuedLinks(d, e);
    ContinueSerial(d.target, e);
    ContinueKeeps(d.target, e);
    SettleKeepsOrder(d.line, e.op, d.target.ops[e.op].Removing? && e.CloseDone?);
  }

  lemma StepKeeps(d: Desk, s: Step)
    requires DeskInv(d) && !(s.Requests? && Hasty(d, s.kind))
    ensures DeskInv(StepOf(d, s))
  {
    match s
    case Requests(kind) =>
      AskKeepsLine(d.line, kind);
      AskKeepsOrder(d.line, kind);
      if !d.local { AskKeepsGuard(d.line, kind); }
    case Starts(op) => if CanStart(d.line, op) { StartedKeeps(d, op); }
    case Continues(e) => if IsContinuation(e) && e.op in d.target.ops { ContinuedKeeps(d, e); }
    case Hears(e) =>
      if IsCallback(e) {
        HeardSerial(d.target, e);
        HeardKeeps(d.target, e);
        HeardKeepsOps(d.target, e);
      }
  }

  lemma {:induction false} RunKeeps(d: Desk, steps: seq<Step>)
    requires DeskInv(d) && Careful(d, steps)
    ensures DeskInv(Steps(d, steps))
    decreases |steps|
  {
    if steps != [] {
      StepKeeps(d, steps[0]);
      RunKeeps(StepOf(d, steps[0]), steps[1..]);
    }
  }

  lemma OpenedHolds(local: bool)
    ensures DeskInv(Opened(local))
  {
  }

  /**
   In every run in which no connect or pairing is requested while a removal of the target is outstanding, at most one
   operation that installs a client is in flight, and every client that is not installed any more has been closed.
   */
  lemma ReplacedClientsAreClosed(local: bool, steps: seq<Step>)
    requires Careful(Opened(local), steps)
    ensures var t := Steps(Opened(local), steps).target;
            && AllClosed(t)
            && forall a, b :: a in t.ops && b in t.ops && Installing(t.ops[a]) && Installing(t.ops[b]) ==> a == b
  {
    OpenedHolds(local);
    RunKeeps(Opened(local), steps);
  }
}
