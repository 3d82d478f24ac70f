/**
 The service queue of the IPC registry (apps/desktop/src/ipc.ts): a chain of promises on which writes and
 coalesced inspections are put. A promise is its position in request order; the event loop decides when
 an operation whose predecessor has settled starts, when it settles and when a settled inspection is
 forgotten.
 */
module ServiceQueues {
  import opened Wrappers

  datatype Kind = Inspection | Write

  datatype Status = Waiting | Running | Fulfilled | Rejected

  /** An operation is chained to the tail it found. */
  datatype Operation = Operation(kind: Kind, after: Option<nat>, status: Status)

  datatype Moment = Started(op: nat) | Settled(op: nat)

  /** An inspection given to a caller, and how many operations had been requested before that call. */
  datatype Hand = Hand(inspection: nat, requested: nat)

  datatype Queue = Queue(
    ops: seq<Operation>,
    tail: Option<nat>,
    inspection: Option<nat>,
    moments: seq<Moment>,
    handed: seq<Hand>
  )

  const IDLE := Queue([], None, None, [], [])

  predicate HasSettled(ops: seq<Operation>, i: nat) {
    i < |ops| && (ops[i].status == Fulfilled || ops[i].status == Rejected)
  }

  function Enqueue(q: Queue, kind: Kind): Queue {
    q.(ops := q.ops + [Operation(kind, q.tail, Waiting)], tail := Some(|q.ops|))
  }

  function Inspect(q: Queue): Queue {
    var asked := if q.inspection.Some? then q else Enqueue(q, Inspection).(inspection := Some(|q.ops|));
    asked.(handed := q.handed + [Hand(asked.inspection.value, |q.ops|)])
  }

  function Act(q: Queue): Queue {
    Enqueue(q.(inspection := None), Write)
  }

  function Start(q: Queue, i: nat): Queue {
    if i < |q.ops| && q.ops[i].status == Waiting && (q.ops[i].after.Some? ==> HasSettled(q.ops, q.ops[i].after.value))
    then q.(ops := q.ops[i := q.ops[i].(status := Running)], moments := q.moments + [Started(i)])
    else q
  }

  function Settle(q: Queue, i: nat, ok: bool): Queue {
    if i < |q.ops| && q.ops[i].status == Running
    then q.(ops := q.ops[i := q.ops[i].(status := if ok then Fulfilled else Rejected)], moments := q.moments + [Settled(i)])
    else q
  }

  function Forget(q: Queue, i: nat): Queue {
    if HasSettled(q.ops, i) && q.inspection == Some(i) then q.(inspection := None) else q
  }

  datatype Event = Inspected | Acted | Starts(op: nat) | Settles(op: nat, ok: bool) | Forgets(op: nat)

  function Next(q: Queue, e: Event): Queue {
    match e
    case Inspected => Inspect(q)
    case Acted => Act(q)
    case Starts(i) => Start(q, i)
    case Settles(i, ok) => Settle(q, i, ok)
    case Forgets(i) => Forget(q, i)
  }

  function Run(q: Queue, events: seq<Event>): Queue
    decreases |events|
  {
    if events == [] then q else Run(Next(q, events[0]), events[1..])
  }

  // ---- invariants ----

  /** The history of n operations that ran one after the other in request order. */
  function OneByOne(n: nat): seq<Moment> {
    if n == 0 then [] else OneByOne(n - 1) + [Started(n - 1), Settled(n - 1)]
  }

  /** The first k operations have settled, at most the next one is running, and nothing else has started. */
  ghost predicate Progress(q: Queue, k: nat) {
    && k <= |q.ops|
    && q.tail == (if |q.ops| == 0 then None else Some(|q.ops| - 1))
    && (forall i :: 0 <= i < |q.ops| ==> q.ops[i].after == if i == 0 then None else Some(i - 1))
    && (forall i :: 0 <= i < k ==> HasSettled(q.ops, i))
    && (forall i :: k < i < |q.ops| ==> q.ops[i].status == Waiting)
    && (k < |q.ops| ==> q.ops[k].status == Waiting || q.ops[k].status == Running)
    && q.moments == OneByOne(k) + if k < |q.ops| && q.ops[k].status == Running then [Started(k)] else []
  }

  /** No write has been requested since the shared inspection, and every handed one follows the writes before the call. */
  ghost predicate Fresh(q: Queue) {
    && (q.inspection.Some? ==>
          && q.inspection.value < |q.ops|
          && forall j :: q.inspection.value <= j < |q.ops| ==> q.ops[j].kind != Write)
    && forall h :: 0 <= h < |q.handed| ==>
         && q.handed[h].inspection < |q.ops| && q.handed[h].requested <= |q.ops|
         && forall j :: q.handed[h].inspection <= j < q.handed[h].requested ==> q.ops[j].kind != Write
  }

  lemma NextKeepsFresh(q: Queue, e: Event)
    requires Fresh(q)
    ensures Fresh(Next(q, e))
  {
  }

  lemma EnqueueKeepsProgress(q: Queue, kind: Kind, k: nat)
    requires Progress(q, k)
    ensures Progress(Enqueue(q, kind), k)
  {
    var q' := Enqueue(q, kind);
    forall i | 0 <= i < k ensures HasSettled(q'.ops, i) {
      assert HasSettled(q.ops, i);
    }
  }

  lemma StartKeepsProgress(q: Queue, i: nat, k: nat)
    requires Progress(q, k)
    ensures Progress(Start(q, i), k)
  {
    var q' := Start(q, i);
    if q' != q {
      assert i < k ==> HasSettled(q.ops, i);
      assert q.ops[i].after == if i == 0 then None else Some(i - 1);
      forall j | 0 <= j < k ensures HasSettled(q'.ops, j) {
        assert HasSettled(q.ops, j);
      }
    }
  }

  lemma SettleKeepsProgress(q: Queue, i: nat, ok: bool, k: nat)
    requires Progress(q, k) && i < |q.ops| && q.ops[i].status == Running
    ensures Progress(Settle(q, i, ok), k + 1)
  {
    var q' := Settle(q, i, ok);
    assert i < k ==> HasSettled(q.ops, i);
    forall j | 0 <= j < k + 1 ensures HasSettled(q'.ops, j) {
      assert j < k ==> HasSettled(q.ops, j);
    }
    assert q'.moments == OneByOne(k) + [Started(k), Settled(k)];
  }

  lemma NextKeepsProgress(q: Queue, e: Event, k: nat) returns (k': nat)
    requires Progress(q, k)
    ensures Progress(Next(q, e), k')
  {
    k' := k;
    match e
    case Inspected => EnqueueKeepsProgress(q, Inspection, k);
    case Acted => EnqueueKeepsProgress(q.(inspection := None), Write, k);
    case Starts(i) => StartKeepsProgress(q, i, k);
    case Settles(i, ok) =>
      if i < |q.ops| && q.ops[i].status == Running {
        SettleKeepsProgress(q, i, ok, k);
        k' := k + 1;
      }
    case Forgets(_) =>
  }

  lemma {:induction false} RunKeeps(q: Queue, events: seq<Event>, k: nat) returns (k': nat)
    requires Progress(q, k) && Fresh(q)
    ensures Progress(Run(q, events), k') && Fresh(Run(q, events))
    decreases |events|
  {
    k' := k;
    if events != [] {
      NextKeepsFresh(q, events[0]);
      k' := NextKeepsProgress(q, events[0], k);
      k' := RunKeeps(Next(q, events[0]), events[1..], k');
    }
  }

  // ---- the promises ----

  lemma {:induction false} OneByOneAt(n: nat, i: nat)
    requires i < n
    ensures |OneByOne(n)| == 2 * n && OneByOne(n)[2 * i] == Started(i) && OneByOne(n)[2 * i + 1] == Settled(i)
  {
    if i < n - 1 { OneByOneAt(n - 1, i); }
    else if n > 1 { OneByOneAt(n - 1, 0); }
  }

  lemma {:induction false} OneByOneLength(n: nat)
    ensures |OneByOne(n)| == 2 * n
  {
    if n > 0 { OneByOneLength(n - 1); }
  }

  lemma HistoryOf(moments: seq<Moment>, k: nat, i: nat)
    requires moments == OneByOne(k) || moments == OneByOne(k) + [Started(k)]
    ensures 2 * i < |moments| ==> moments[2 * i] == Started(i)
    ensures 2 * i + 1 < |moments| ==> moments[2 * i + 1] == Settled(i)
  {
    OneByOneLength(k);
    if i < k { OneByOneAt(k, i); }
  }

  /** Operations never overlap and run in request order, whether they are fulfilled or rejected. */
  lemma OperationsRunOneByOne(events: seq<Event>, at: nat)
    requires at < |Run(IDLE, events).moments|
    ensures Run(IDLE, events).moments[at] == if at % 2 == 0 then Started(at / 2) else Settled(at / 2)
  {
    var k := RunKeeps(IDLE, events, 0);
    HistoryOf(Run(IDLE, events).moments, k, at / 2);
    assert at == 2 * (at / 2) + at % 2;
  }

  /**
   Read after write: an inspection handed to any caller, coalesced or not, starts only after every write
   that was requested before that call has settled.
   */
  lemma ReadAfterWrite(events: seq<Event>, h: nat, write: nat, at: nat)
    requires var q := Run(IDLE, events);
             h < |q.handed| && write < q.handed[h].requested && write < |q.ops| && q.ops[write].kind == Write
    requires var q := Run(IDLE, events);
             at < |q.moments| && q.moments[at] == Started(q.handed[h].inspection)
    ensures var q := Run(IDLE, events);
            exists before :: 0 <= before < at && q.moments[before] == Settled(write)
  {
    var q := Run(IDLE, events);
    var k := RunKeeps(IDLE, events, 0);
    OperationsRunOneByOne(events, at);
    assert write < q.handed[h].inspection;
    OperationsRunOneByOne(events, 2 * write + 1);
  }

  // ---- the fields of the registry ----

  class ServiceQueue {
    var promises: seq<Operation>
    var tail: Option<nat>
    var serviceInspectionPromise: Option<nat>
    ghost var moments: seq<Moment>
    ghost var handed: seq<Hand>

    ghost function Model(): Queue
      reads this
    {
      Queue(promises, tail, serviceInspectionPromise, moments, handed)
    }

    constructor ()
      ensures Model() == IDLE
    {
      promises, tail, serviceInspectionPromise, moments, handed := [], None, None, [], [];
    }

    method EnqueueService(kind: Kind) returns (promise: nat)
      modifies this`promises, this`tail
      ensures promise == |old(promises)| && Model() == Enqueue(old(Model()), kind)
    {
      promise := |promises|;
      promises := promises + [Operation(kind, tail, Waiting)];
      tail := Some(promise);
    }

    method InspectService() returns (promise: nat)
      modifies this
      ensures Model() == Inspect(old(Model()))
      ensures old(serviceInspectionPromise).Some? ==> promise == old(serviceInspectionPromise).value && promises == old(promises)
      ensures old(serviceInspectionPromise).None? ==> promise == |old(promises)| && |promises| == |old(promises)| + 1
      ensures serviceInspectionPromise == Some(promise)
      ensures handed == old(handed) + [Hand(promise, |old(promises)|)]
    {
      if serviceInspectionPromise.Some? {
        promise := serviceInspectionPromise.value;
        handed := handed + [Hand(promise, |promises|)];
        return;
      }
      handed := handed + [Hand(|promises|, |promises|)];
      promise := EnqueueService(Inspection);
      serviceInspectionPromise := Some(promise);
    }

    method RunServiceAction() returns (promise: nat)
      modifies this
      ensures promise == |old(promises)| && Model() == Act(old(Model()))
    {
      serviceInspectionPromise := None;
      promise := EnqueueService(Write);
    }

    method ClearInspection(promise: nat)
      requires HasSettled(promises, promise)
      modifies this`serviceInspectionPromise
      ensures Model() == Forget(old(Model()), promise)
    {
      if serviceInspectionPromise == Some(promise) { serviceInspectionPromise := None; }
    }
  }
}
