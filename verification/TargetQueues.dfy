/**
 The queues on which the target manager puts the operations of one target (apps/desktop/src/target-manager.ts): an
 operation is chained to the tail that the target's entry holds, and a finished removal deletes the entry. An operation
 is known by the number of operations requested before it.
 */
module TargetQueues {
  import opened Wrappers
  import opened TargetModel

  datatype Kind = Connect | Pair | Disconnect | Remove

  datatype Request = Request(kind: Kind, after: Option<nat>, begun: bool)

  /** The requests so far, the tail in the target's entry, and the requests whose promises have settled. */
  datatype Line = Line(requests: seq<Request>, tail: Option<nat>, settled: set<nat>)

  const IDLE := Line([], None, {})

  /** enqueueTarget: without an entry a new chain is begun. */
  function Ask(l: Line, kind: Kind): Line {
    l.(requests := l.requests + [Request(kind, l.tail, false)], tail := Some(|l.requests|))
  }

  predicate CanStart(l: Line, op: nat) {
    && op < |l.requests| && !l.requests[op].begun
    && (l.requests[op].after.Some? ==> l.requests[op].after.value in l.settled)
  }

  function Start(l: Line, op: nat): Line
    requires op < |l.requests|
  {
    l.(requests := l.requests[op := l.requests[op].(begun := true)])
  }

  /** An operation settles; a removal that succeeds has just deleted the target's entry, whatever it held. */
  function Settle(l: Line, op: nat, forget: bool): Line {
    l.(settled := l.settled + {op}, tail := if forget then None else l.tail)
  }

  // ---- a target with its queues ----

  datatype Desk = Desk(local: bool, target: Target, line: Line)

  function Opened(local: bool): Desk {
    Desk(local, UNKNOWN, IDLE)
  }

  /** The first stretch of an operation; the removal of a local target is refused at once. */
  function Begun(t: Target, local: bool, kind: Kind, op: nat): Target {
    match kind
    case Connect => Begin(t, BeginConnect(op))
    case Pair => Begin(t, BeginPair(op, local))
    case Disconnect => Begin(t, BeginDisconnect(op))
    case Remove => if local then t else Begin(t, BeginRemove(op))
  }

  datatype Step = Requests(kind: Kind) | Starts(op: nat) | Continues(e: Event) | Hears(e: Event)

  predicate IsContinuation(e: Event) {
    e.LookupDone? || e.CloseDone? || e.ConnectDone? || e.PairDone? || e.OpFailed?
  }

  predicate IsCallback(e: Event) {
    e.ClientMoved? || e.ClientSpoke? || e.ClientFailed? || e.AttemptSettled? || e.CredentialSaved?
  }

  function Started(d: Desk, op: nat): Desk
    requires op < |d.line.requests|
  {
    var t := Begun(d.target, d.local, d.line.requests[op].kind, op);
    var l := Start(d.line, op);
    Desk(d.local, t, if op in t.ops then l else Settle(l, op, false))
  }

  function Continued(d: Desk, e: Event): Desk
    requires IsContinuation(e) && e.op in d.target.ops
  {
    var t := Continue(d.target, e);
    Desk(d.local, t, if e.op in t.ops then d.line else Settle(d.line, e.op, d.target.ops[e.op].Removing? && e.CloseDone?))
  }

  function StepOf(d: Desk, s: Step): Desk {
    match s
    case Requests(kind) => d.(line := Ask(d.line, kind))
    case Starts(op) => if CanStart(d.line, op) then Started(d, op) else d
    case Continues(e) => if IsContinuation(e) && e.op in d.target.ops then Continued(d, e) else d
    case Hears(e) => if IsCallback(e) then d.(target := Heard(d.target, e)) else d
  }

  function Steps(d: Desk, steps: seq<Step>): Desk
    decreases |steps|
  {
    if steps == [] then d else Steps(StepOf(d, steps[0]), steps[1..])
  }

  // ---- what can happen ----

  /** The state of the installed client. */
  function Installed(t: Target): Option<ClientState> {
    if t.runtime.Some? && t.runtime.value < |t.clients| then Some(t.clients[t.runtime.value].state) else None
  }

  /** The connect attempt of the installed client has been resolved, or that of one that is gone has been rejected. */
  predicate AttemptOver(t: Target) {
    Installed(t) in {None, Some(Ready), Some(NeedsPairing), Some(Fatal)}
  }

  predicate Immediate(t: Target, stage: Stage) {
    match stage
    case Closing(_, _, waits) => !waits
    case PairConnecting(waits) => !waits || AttemptOver(t)
    case Disconnecting(waits) => !waits
    case _ => false
  }

  /** An operation whose promise has settled goes on in a microtask, before any callback or request can come in. */
  predicate Ripe(d: Desk, op: nat) {
    CanStart(d.line, op) || (op in d.target.ops && Immediate(d.target, d.target.ops[op]))
  }

  predicate Restless(d: Desk) {
    exists op: nat :: op < |d.line.requests| && Ripe(d, op)
  }

  predicate Timely(d: Desk, s: Step) {
    Restless(d) ==>
      || (s.Starts? && Ripe(d, s.op))
      || (s.Continues? && IsContinuation(s.e) && Ripe(d, s.e.op))
  }

  /** The moves a client makes; an idle, closing or closed one is in another state. */
  predicate Legal(state: ClientState, next: ClientState) {
    match state
    case Other => next == Connecting
    case Connecting => next == Handshaking || next == ReconnectWait || next == Fatal
    case Handshaking => next == Ready || next == NeedsPairing || next == ReconnectWait || next == Fatal
    case NeedsPairing => next == Ready || next == ReconnectWait || next == Fatal
    case Ready => next == NeedsPairing || next == ReconnectWait || next == Fatal
    case ReconnectWait => next == Connecting || next == Fatal
    case Fatal => next == Connecting
  }

  /** Clients keep to their moves, and a welcome that does not make ready asks for pairing. */
  predicate ClientMay(t: Target, e: Event) {
    && (e.ClientMoved? ==> e.client < |t.clients| && !t.clients[e.client].closed && Legal(t.clients[e.client].state, e.state))
    && (e.ClientSpoke? && e.welcome ==> e.client < |t.clients| && t.clients[e.client].state == NeedsPairing)
  }

  /** An awaited attempt is resolved by a welcome, and rejected by a failure, a close or before it began. */
  predicate AttemptMay(t: Target, e: Event) {
    IsContinuation(e) && e.op in t.ops && t.ops[e.op] == PairConnecting(true) ==>
      && (e.ConnectDone? ==> Installed(t) in {Some(Ready), Some(NeedsPairing)})
      && (e.OpFailed? ==> Installed(t) in {None, Some(Fatal), Some(Other)})
  }

  predicate Possible(d: Desk, s: Step) {
    Timely(d, s) && (s.Hears? ==> ClientMay(d.target, s.e)) && (s.Continues? ==> AttemptMay(d.target, s.e))
  }

  /** A run that the code can make: prompt, and with clients that keep to their moves. */
  predicate Real(d: Desk, steps: seq<Step>)
    decreases |steps|
  {
    steps == [] || (Possible(d, steps[0]) && Real(StepOf(d, steps[0]), steps[1..]))
  }

  // ---- what a caller may do ----

  /** The operations that install a client. */
  predicate Opening(kind: Kind) {
    kind == Connect || kind == Pair
  }

  /** A removal of the target has been requested and has not settled. */
  predicate Outstanding(l: Line, r: nat) {
    r < |l.requests| && l.requests[r].kind == Remove && r !in l.settled
  }

  /** A connect or a pairing is requested while a removal of a remote target is outstanding. */
  predicate Hasty(d: Desk, kind: Kind) {
    !d.local && Opening(kind) && exists r :: 0 <= r < |d.line.requests| && Outstanding(d.line, r)
  }

  predicate Careful(d: Desk, steps: seq<Step>)
    decreases |steps|
  {
    steps == [] || (!(steps[0].Requests? && Hasty(d, steps[0].kind)) && Careful(StepOf(d, steps[0]), steps[1..]))
  }

  // ---- the entries of all targets, as the manager keeps them ----

  type TargetId = nat

  class TargetQueueMap {
    /** targetQueues: the tail of each entry. */
    var tails: map<TargetId, nat>
    var requests: map<TargetId, seq<Request>>
    var settled: map<TargetId, set<nat>>

    ghost function LineOf(id: TargetId): Line
      reads this
    {
      Line(if id in requests then requests[id] else [], if id in tails then Some(tails[id]) else None,
           if id in settled then settled[id] else {})
    }

    constructor ()
      ensures forall id :: LineOf(id) == IDLE
    {
      tails, requests, settled := map[], map[], map[];
    }

    method EnqueueTarget(id: TargetId, kind: Kind) returns (op: nat)
      modifies this`tails, this`requests
      ensures op == |old(LineOf(id)).requests| && LineOf(id) == Ask(old(LineOf(id)), kind)
      ensures forall other :: other != id ==> LineOf(other) == old(LineOf(other))
    {
      var known := if id in requests then requests[id] else [];
      var after := if id in tails then Some(tails[id]) else None;
      op := |known|;
      requests := requests[id := known + [Request(kind, after, false)]];
      tails := tails[id := op];
    }

    /** The end of an operation; that of a successful removal deletes the entry. */
    method SettleOperation(id: TargetId, op: nat, removed: bool)
      modifies this`tails, this`settled
      ensures LineOf(id) == Settle(old(LineOf(id)), op, removed)
      ensures forall other :: other != id ==> LineOf(other) == old(LineOf(other))
    {
      settled := settled[id := (if id in settled then settled[id] else {}) + {op}];
      if removed { tails := tails - {id}; }
    }
  }
}
