/**
 The dialog queues of browser surfaces (apps/desktop/src/browser-dialogs.ts). A job is known by the number of jobs its
 queue accepted before it; native dialogs answer, fail or stay open for as long as they like.
 */
module Dialogs {
  import opened Wrappers

  type Surface = nat

  /**
   A queue with its jobs' settled flags, and its history: how many jobs were accepted, which were started, whose
   dialogs are still open, which were resolved, and which of them with the value of their dialog.
   */
  datatype Queue = Queue(
    jobs: seq<nat>,
    active: Option<nat>,
    settled: set<nat>,
    disposed: bool,
    draining: bool,
    accepted: nat,
    started: seq<nat>,
    running: set<nat>,
    resolved: multiset<nat>,
    values: set<nat>)

  const EMPTY := Queue([], None, {}, false, false, 0, [], {}, multiset{}, {})

  // ---- one queue ----

  /** One turn of the drain loop, up to the next await or the end of the loop. */
  function Turn(q: Queue): Queue {
    if q.disposed || q.jobs == [] then q.(draining := false)
    else
      var job := q.jobs[0];
      q.(jobs := q.jobs[1..], active := Some(job), started := q.started + [job], running := q.running + {job})
  }

  function Drain(q: Queue): Queue {
    if q.draining then q else Turn(q.(draining := true))
  }

  /** A request that the queue accepts; a refused one is answered with its fallback and leaves no trace here. */
  predicate Accepts(q: Queue, maxQueue: nat) {
    !q.disposed && |q.jobs| < maxQueue
  }

  function Enqueue(q: Queue, maxQueue: nat): Queue {
    if !Accepts(q, maxQueue) then q else Drain(q.(jobs := q.jobs + [q.accepted], accepted := q.accepted + 1))
  }

  /** A job is answered unless that has happened before. */
  function Settle(q: Queue, job: nat, ok: bool): Queue {
    if job in q.settled then q
    else
      q.(settled := q.settled + {job}, resolved := q.resolved + multiset{job},
         values := if ok then q.values + {job} else q.values)
  }

  /** The dialog of a started job closes, with a value or with an error, and its loop goes on. */
  function Complete(q: Queue, job: nat, ok: bool): Queue {
    if job !in q.running then q else Turn(Settle(q.(running := q.running - {job}), job, ok).(active := None))
  }

  function Members(s: seq<nat>): set<nat> {
    set i | 0 <= i < |s| :: s[i]
  }

  /** The waiting jobs of a disposed queue are answered with their fallbacks. */
  function Dropped(q: Queue): Queue {
    q.(disposed := true, jobs := [], settled := q.settled + Members(q.jobs), resolved := q.resolved + multiset(q.jobs))
  }

  function Dispose(q: Queue): Queue {
    var dropped := Dropped(q);
    if q.active.None? then dropped
    else
      dropped.(settled := dropped.settled + {q.active.value}, resolved := dropped.resolved + multiset{q.active.value})
  }

  // ---- what a queue keeps ----

  function Upto(from: nat, n: nat): (r: seq<nat>)
    ensures |r| == n && forall i :: 0 <= i < n ==> r[i] == from + i
  {
    seq(n, i requires 0 <= i < n => from + i)
  }

  /** The number of jobs that are settled: all that were started but the active one, and all once disposed. */
  function SettledCount(q: Queue): int {
    if q.disposed then q.accepted else if q.active.Some? then |q.started| - 1 else |q.started|
  }

  ghost predicate Inv(q: Queue, maxQueue: nat) {
    && |q.jobs| <= maxQueue
    && q.started == Upto(0, |q.started|) && |q.started| <= q.accepted
    && (q.draining <==> q.active.Some?)
    && (q.active.Some? ==> |q.started| > 0 && q.active.value == |q.started| - 1)
    && q.running == (if q.active.Some? then {q.active.value} else {})
    && (if q.disposed then q.jobs == [] else q.jobs == Upto(|q.started|, q.accepted - |q.started|))
    && (!q.disposed && q.jobs != [] ==> q.draining)
    && (forall j :: q.resolved[j] == if 0 <= j < SettledCount(q) then 1 else 0)
    && (forall j :: j in q.settled <==> 0 <= j < SettledCount(q))
    && q.values <= q.settled
  }

  lemma EnqueueKeeps(q: Queue, maxQueue: nat)
    requires Inv(q, maxQueue)
    ensures Inv(Enqueue(q, maxQueue), maxQueue)
  {
  }

  lemma CompleteKeeps(q: Queue, maxQueue: nat, job: nat, ok: bool)
    requires Inv(q, maxQueue)
    ensures Inv(Complete(q, job, ok), maxQueue)
  {
  }

  lemma {:induction false} CountUpto(from: nat, n: nat)
    ensures forall j :: multiset(Upto(from, n))[j] == if from <= j < from + n then 1 else 0
  {
    if n > 0 {
      CountUpto(from, n - 1);
      assert Upto(from, n) == Upto(from, n - 1) + [from + n - 1];
    } else {
      assert Upto(from, n) == [];
    }
  }

  lemma MembersUpto(from: nat, n: nat)
    ensures forall j :: j in Members(Upto(from, n)) <==> from <= j < from + n
  {
    forall j | from <= j < from + n ensures j in Members(Upto(from, n)) { assert Upto(from, n)[j - from] == j; }
  }

  lemma DisposeCounts(q: Queue, maxQueue: nat)
    requires Inv(q, maxQueue) && !q.disposed
    ensures forall j :: Dispose(q).resolved[j] == if 0 <= j < q.accepted then 1 else 0
  {
    CountUpto(|q.started|, |q.jobs|);
  }

  lemma DisposeSettles(q: Queue, maxQueue: nat)
    requires Inv(q, maxQueue) && !q.disposed
    ensures forall j :: j in Dispose(q).settled <==> 0 <= j < q.accepted
  {
    MembersUpto(|q.started|, |q.jobs|);
  }

  lemma DisposeKeeps(q: Queue, maxQueue: nat)
    requires Inv(q, maxQueue) && !q.disposed
    ensures Inv(Dispose(q), maxQueue)
  {
    DisposeCounts(q, maxQueue);
    DisposeSettles(q, maxQueue);
  }

  // ---- runs of one queue ----

  datatype Event = Request | Closed(job: nat, ok: bool) | Disposed

  function Next(q: Queue, maxQueue: nat, e: Event): Queue {
    match e
    case Request => Enqueue(q, maxQueue)
    case Closed(job, ok) => Complete(q, job, ok)
    case Disposed => if q.disposed then q else Dispose(q)
  }

  function Run(q: Queue, maxQueue: nat, events: seq<Event>): Queue
    decreases |events|
  {
    if events == [] then q else Run(Next(q, maxQueue, events[0]), maxQueue, events[1..])
  }

  lemma NextKeeps(q: Queue, maxQueue: nat, e: Event)
    requires Inv(q, maxQueue)
    ensures Inv(Next(q, maxQueue, e), maxQueue)
  {
    match e
    case Request => EnqueueKeeps(q, maxQueue);
    case Closed(job, ok) => CompleteKeeps(q, maxQueue, job, ok);
    case Disposed => if !q.disposed { DisposeKeeps(q, maxQueue); }
  }

  lemma {:induction false} RunKeeps(q: Queue, maxQueue: nat, events: seq<Event>)
    requires Inv(q, maxQueue)
    ensures Inv(Run(q, maxQueue, events), maxQueue)
    decreases |events|
  {
    if events != [] {
      NextKeeps(q, maxQueue, events[0]);
      RunKeeps(Next(q, maxQueue, events[0]), maxQueue, events[1..]);
    }
  }

  /**
   In every run each accepted job is resolved at most once, and exactly once as soon as it is neither pending nor
   running in an open queue; no other job is ever resolved. Jobs start in the order they were accepted, at most one
   dialog is open, the pending jobs fit the limit, and an open queue with pending jobs is draining.
   */
  lemma EveryJobIsResolvedOnce(maxQueue: nat, events: seq<Event>, job: nat)
    ensures var q := Run(EMPTY, maxQueue, events);
            && q.resolved[job] == (if job < q.accepted && job !in q.jobs && (q.disposed || job !in q.running) then 1 else 0)
            && (forall i :: 0 <= i < |q.started| ==> q.started[i] == i)
            && (forall j, k :: j in q.running && k in q.running ==> j == k)
            && |q.jobs| <= maxQueue && (!q.disposed && q.jobs != [] ==> q.draining)
  {
    RunKeeps(EMPTY, maxQueue, events);
    InvResolves(Run(EMPTY, maxQueue, events), maxQueue, job);
  }

  lemma InvResolves(q: Queue, maxQueue: nat, job: nat)
    requires Inv(q, maxQueue)
    ensures q.resolved[job] == if job < q.accepted && job !in q.jobs && (q.disposed || job !in q.running) then 1 else 0
    ensures forall i :: 0 <= i < |q.started| ==> q.started[i] == i
  {
    if !q.disposed && |q.started| <= job < q.accepted { assert q.jobs[job - |q.started|] == job; }
  }

  /** The value of a dialog reaches its job exactly when it comes before the disposal. */
  lemma ValueReachesItsJob(q: Queue, maxQueue: nat, job: nat, ok: bool)
    requires Inv(q, maxQueue) && job in q.running
    ensures var r := Complete(q, job, ok);
            && r.values == (if ok && !q.disposed then q.values + {job} else q.values)
            && r.resolved == (if q.disposed then q.resolved else q.resolved + multiset{job})
  {
  }

  // ---- the controller ----

  /** All queues ever installed, the surface each was installed for, and the queue each surface uses now. */
  datatype Controller = Controller(
    maxQueue: nat,
    queues: seq<Queue>,
    homes: seq<Surface>,
    surfaces: map<Surface, nat>,
    disposed: bool)

  function Made(maxQueue: nat): Controller {
    Controller(maxQueue, [], [], map[], false)
  }

  predicate Indexed(c: Controller) {
    |c.homes| == |c.queues| && forall s :: s in c.surfaces ==> c.surfaces[s] < |c.queues| && c.homes[c.surfaces[s]] == s
  }

  function DisposeSurface(c: Controller, s: Surface): Controller
    requires Indexed(c)
  {
    if s !in c.surfaces then c
    else
      var i := c.surfaces[s];
      c.(queues := c.queues[i := Dispose(c.queues[i])], surfaces := c.surfaces - {s})
  }

  function Install(c: Controller, s: Surface): Controller
    requires Indexed(c)
  {
    if c.disposed then c else
    var cleared := DisposeSurface(c, s);
    cleared.(queues := cleared.queues + [EMPTY], homes := cleared.homes + [s],
             surfaces := cleared.surfaces[s := |cleared.queues|])
  }

  function Ask(c: Controller, s: Surface): Controller
    requires Indexed(c)
  {
    if s !in c.surfaces || c.disposed then c
    else
      var i := c.surfaces[s];
      c.(queues := c.queues[i := Enqueue(c.queues[i], c.maxQueue)])
  }

  function Close(c: Controller, i: nat, job: nat, ok: bool): Controller {
    if i >= |c.queues| then c else c.(queues := c.queues[i := Complete(c.queues[i], job, ok)])
  }

  /** Every queue in use is disposed. */
  function DisposeAll(c: Controller): Controller {
    if c.disposed then c
    else
      c.(disposed := true, surfaces := map[],
         queues := seq(|c.queues|, i requires 0 <= i < |c.queues| =>
                       if i in c.surfaces.Values then Dispose(c.queues[i]) else c.queues[i]))
  }

  /** Every queue keeps its invariant, and a queue is open exactly when one surface uses it. */
  ghost predicate ControllerInv(c: Controller) {
    && Indexed(c)
    && (forall i :: 0 <= i < |c.queues| ==> Inv(c.queues[i], c.maxQueue))
    && (forall i :: 0 <= i < |c.queues| ==> (!c.queues[i].disposed <==> i in c.surfaces.Values))
    && (c.disposed ==> c.surfaces == map[])
  }

  datatype Step =
    | Installs(s: Surface)
    | Asks(s: Surface)
    | Closes(i: nat, job: nat, ok: bool)
    | Drops(s: Surface)
    | DropsAll

  function StepOf(c: Controller, e: Step): Controller
    requires Indexed(c)
  {
    match e
    case Installs(s) => Install(c, s)
    case Asks(s) => Ask(c, s)
    case Closes(i, job, ok) => Close(c, i, job, ok)
    case Drops(s) => DisposeSurface(c, s)
    case DropsAll => DisposeAll(c)
  }

  lemma DisposeSurfaceKeeps(c: Controller, s: Surface)
    requires ControllerInv(c)
    ensures ControllerInv(DisposeSurface(c, s))
  {
    if s in c.surfaces {
      var i := c.surfaces[s];
      assert i in c.surfaces.Values;
      DisposeKeeps(c.queues[i], c.maxQueue);
      var after := c.surfaces - {s};
      forall k | 0 <= k < |c.queues| ensures k in after.Values <==> k in c.surfaces.Values && k != i {
        if k in c.surfaces.Values && k != i {
          var t :| t in c.surfaces && c.surfaces[t] == k;
          assert t in after && after[t] == k;
        }
        if k in after.Values {
          var t :| t in after && after[t] == k;
          assert c.surfaces[t] == k;
        }
      }
    }
  }

  lemma EmptyHolds(maxQueue: nat)
    ensures Inv(EMPTY, maxQueue)
  {
  }

  lemma ValuesAfter(surfaces: map<Surface, nat>, s: Surface, n: nat)
    requires s !in surfaces
    ensures forall k: nat :: k in surfaces[s := n].Values <==> k in surfaces.Values || k == n
  {
    var after := surfaces[s := n];
    forall k: nat ensures k in after.Values <==> k in surfaces.Values || k == n {
      if k in surfaces.Values {
        var t :| t in surfaces && surfaces[t] == k;
        assert after[t] == k;
      }
      if k in after.Values {
        var t :| t in after && after[t] == k;
        assert t == s || surfaces[t] == k;
      }
      if k == n { assert after[s] == k; }
    }
  }

  lemma InstallKeeps(c: Controller, s: Surface)
    requires ControllerInv(c) && !c.disposed
    ensures ControllerInv(Install(c, s))
  {
    DisposeSurfaceKeeps(c, s);
    var d := DisposeSurface(c, s);
    assert s !in d.surfaces && d.maxQueue == c.maxQueue && !d.disposed;
    AddKeeps(d, s);
  }

  lemma AddKeeps(d: Controller, s: Surface)
    requires ControllerInv(d) && !d.disposed && s !in d.surfaces
    ensures ControllerInv(d.(queues := d.queues + [EMPTY], homes := d.homes + [s], surfaces := d.surfaces[s := |d.queues|]))
  {
    var n: nat := |d.queues|;
    ValuesAfter(d.surfaces, s, n);
    EmptyHolds(d.maxQueue);
    var queues := d.queues + [EMPTY];
    var surfaces: map<Surface, nat> := d.surfaces[s := n];
    forall i: nat | i < |queues| ensures Inv(queues[i], d.maxQueue) && (!queues[i].disposed <==> i in surfaces.Values) {
      assert i in surfaces.Values <==> i in d.surfaces.Values || i == n;
      if i < n { assert queues[i] == d.queues[i]; } else { assert queues[i] == EMPTY && i == n; }
    }
    assert forall k :: k in d.surfaces.Values ==> k < n;
  }

  lemma ReplaceKeeps(c: Controller, i: nat, q: Queue)
    requires ControllerInv(c) && i < |c.queues| && Inv(q, c.maxQueue) && q.disposed == c.queues[i].disposed
    ensures ControllerInv(c.(queues := c.queues[i := q]))
  {
  }

  lemma DisposeAllKeeps(c: Controller)
    requires ControllerInv(c)
    ensures ControllerInv(DisposeAll(c))
  {
    forall i | 0 <= i < |c.queues| && i in c.surfaces.Values ensures Inv(Dispose(c.queues[i]), c.maxQueue) {
      DisposeKeeps(c.queues[i], c.maxQueue);
    }
  }

  lemma AskKeeps(c: Controller, s: Surface)
    requires ControllerInv(c)
    ensures ControllerInv(Ask(c, s))
  {
    if s in c.surfaces && !c.disposed {
      var i := c.surfaces[s];
      EnqueueKeeps(c.queues[i], c.maxQueue);
      ReplaceKeeps(c, i, Enqueue(c.queues[i], c.maxQueue));
    }
  }

  lemma CloseKeeps(c: Controller, i: nat, job: nat, ok: bool)
    requires ControllerInv(c)
    ensures ControllerInv(Close(c, i, job, ok))
  {
    if i < |c.queues| {
      CompleteKeeps(c.queues[i], c.maxQueue, job, ok);
      ReplaceKeeps(c, i, Complete(c.queues[i], job, ok));
    }
  }

  lemma StepKeeps(c: Controller, e: Step)
    requires ControllerInv(c)
    ensures ControllerInv(StepOf(c, e))
  {
    match e
    case Installs(s) => if !c.disposed { InstallKeeps(c, s); }
    case Asks(s) => AskKeeps(c, s);
    case Closes(i, job, ok) => CloseKeeps(c, i, job, ok);
    case Drops(s) => DisposeSurfaceKeeps(c, s);
    case DropsAll => DisposeAllKeeps(c);
  }

  /** Some steps lead from one state of the controller to another. */
  ghost predicate Leads(c: Controller, steps: seq<Step>, d: Controller)
    decreases |steps|
  {
    if steps == [] then c == d else Indexed(c) && Leads(StepOf(c, steps[0]), steps[1..], d)
  }

  lemma {:induction false} LeadsKeeps(c: Controller, steps: seq<Step>, d: Controller)
    requires ControllerInv(c) && Leads(c, steps, d)
    ensures ControllerInv(d)
    decreases |steps|
  {
    if steps != [] {
      StepKeeps(c, steps[0]);
      LeadsKeeps(StepOf(c, steps[0]), steps[1..], d);
    }
  }

  /**
   Over any installs, requests, closed dialogs and disposals: every job accepted by any queue, also one that was
   replaced by a new install, is resolved once it is neither pending nor running in an open queue, and never twice;
   a surface has at most one open queue, and after disposal of the controller there is none.
   */
  lemma EverySurfaceIsServed(maxQueue: nat, steps: seq<Step>, c: Controller, i: nat, job: nat)
    requires Leads(Made(maxQueue), steps, c) && i < |c.queues|
    ensures var q := c.queues[i];
            && q.resolved[job] == (if job < q.accepted && job !in q.jobs && (q.disposed || job !in q.running) then 1 else 0)
            && (!q.disposed <==> exists s :: s in c.surfaces && c.surfaces[s] == i)
            && (c.disposed ==> q.disposed)
  {
    LeadsKeeps(Made(maxQueue), steps, c);
    InvResolves(c.queues[i], c.maxQueue, job);
    assert i in c.surfaces.Values <==> exists s :: s in c.surfaces && c.surfaces[s] == i;
  }

  // ---- the queue as the source updates it ----

  class SurfaceQueue {
    const maxQueue: nat
    var jobs: seq<nat>
    var active: Option<nat>
    var settled: set<nat>
    var disposed: bool
    var draining: bool
    ghost var accepted: nat
    ghost var started: seq<nat>
    ghost var running: set<nat>
    ghost var resolved: multiset<nat>
    ghost var values: set<nat>

    ghost function Model(): Queue
      reads this
    {
      Queue(jobs, active, settled, disposed, draining, accepted, started, running, resolved, values)
    }

    constructor (max: nat)
      ensures maxQueue == max && Model() == EMPTY
    {
      maxQueue, jobs, active, settled, disposed, draining := max, [], None, {}, false, false;
      accepted, started, running, resolved, values := 0, [], {}, multiset{}, {};
    }

    method Resolve(job: nat, ghost ok: bool)
      modifies this`resolved, this`values
      ensures resolved == old(resolved) + multiset{job} && values == (if ok then old(values) + {job} else old(values))
    {
      resolved := resolved + multiset{job};
      if ok { values := values + {job}; }
    }

    /** The head of the drain loop. */
    method TakeNext()
      modifies this
      ensures Model() == Turn(old(Model()))
    {
      if disposed || jobs == [] { draining := false; return; }
      var job := jobs[0];
      jobs := jobs[1..];
      active := Some(job);
      started, running := started + [job], running + {job};
    }

    method StartDrain()
      modifies this
      ensures Model() == Drain(old(Model()))
    {
      if draining { return; }
      draining := true;
      TakeNext();
    }

    /** enqueue: the job's number, or nothing when the fallback is returned at once. */
    method Add(job: nat) returns (taken: bool)
      requires job == accepted
      modifies this
      ensures taken <==> Accepts(old(Model()), maxQueue)
      ensures Model() == Enqueue(old(Model()), maxQueue)
    {
      if disposed || |jobs| >= maxQueue { return false; }
      jobs := jobs + [job];
      accepted := accepted + 1;
      StartDrain();
      taken := true;
    }

    /** The rest of a turn of the drain loop, when the dialog of its job has closed. */
    method Resume(job: nat, ok: bool)
      requires job in running
      modifies this
      ensures Model() == Complete(old(Model()), job, ok)
    {
      running := running - {job};
      SettleJob(job, ok);
      active := None;
      TakeNext();
    }

    method SettleJob(job: nat, ok: bool)
      modifies this`settled, this`resolved, this`values
      ensures Model() == Settle(old(Model()), job, ok)
    {
      if job in settled { return; }
      settled := settled + {job};
      Resolve(job, ok);
    }

    method ResolveAll(dropped: seq<nat>)
      modifies this`settled, this`resolved, this`values
      ensures settled == old(settled) + Members(dropped) && resolved == old(resolved) + multiset(dropped)
      ensures values == old(values)
    {
      var i := 0;
      while i < |dropped|
        invariant 0 <= i <= |dropped| && values == old(values)
        invariant settled == old(settled) + Members(dropped[..i])
        invariant resolved == old(resolved) + multiset(dropped[..i])
      {
        MembersAppend(dropped[..i], dropped[i]);
        assert dropped[..i + 1] == dropped[..i] + [dropped[i]];
        settled := settled + {dropped[i]};
        Resolve(dropped[i], false);
        i := i + 1;
      }
      assert dropped[..i] == dropped;
    }

    method DisposeQueue()
      modifies this
      ensures Model() == Dispose(old(Model()))
    {
      ghost var before := Model();
      disposed := true;
      var dropped := jobs;
      jobs := [];
      ResolveAll(dropped);
      assert Model() == Dropped(before);
      if active.Some? {
        settled := settled + {active.value};
        Resolve(active.value, false);
      }
    }
  }

  lemma MembersAppend(s: seq<nat>, x: nat)
    ensures Members(s + [x]) == Members(s) + {x}
  {
    assert forall i :: 0 <= i < |s| ==> (s + [x])[i] == s[i];
    assert (s + [x])[|s|] == x;
  }
}
