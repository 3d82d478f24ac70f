/** What requests, closed dialogs and disposals do to the dialogs that are open and waiting. */
module DialogEffects {
  import opened Wrappers
  import opened Dialogs

  ghost predicate Reachable(q: Queue, maxQueue: nat) {
    exists events :: Run(EMPTY, maxQueue, events) == q
  }

  lemma ReachableInv(q: Queue, maxQueue: nat)
    requires Reachable(q, maxQueue)
    ensures Inv(q, maxQueue)
  {
    var events :| Run(EMPTY, maxQueue, events) == q;
    RunKeeps(EMPTY, maxQueue, events);
  }

  /** A request opens its dialog at once if none is open, and waits behind all others if one is. */
  lemma RequestIsShownOrWaits(q: Queue, maxQueue: nat)
    requires Reachable(q, maxQueue) && !q.disposed && |q.jobs| < maxQueue
    ensures var q' := Next(q, maxQueue, Request);
            && q'.accepted == q.accepted + 1 && q'.resolved == q.resolved && q'.values == q.values && !q'.disposed
            && (if q.running == {} then q'.running == {q.accepted} && q'.jobs == []
                else q'.running == q.running && q'.jobs == q.jobs + [q.accepted])
  {
    ReachableInv(q, maxQueue);
  }

  /** A request of a full or disposed queue changes nothing. */
  lemma FullQueueRefuses(q: Queue, maxQueue: nat)
    requires q.disposed || |q.jobs| >= maxQueue
    ensures Next(q, maxQueue, Request) == q
  {
  }

  /** When a dialog closes its job is answered, with the value if there is one, and the job that waited longest is shown. */
  lemma ClosingShowsTheNext(q: Queue, maxQueue: nat, job: nat, ok: bool)
    requires Reachable(q, maxQueue) && job in q.running && !q.disposed
    ensures var q' := Next(q, maxQueue, Closed(job, ok));
            && q'.resolved == q.resolved + multiset{job} && q'.values == (if ok then q.values + {job} else q.values)
            && q'.accepted == q.accepted && !q'.disposed
            && (if q.jobs == [] then q'.running == {} && q'.jobs == []
                else q'.running == {q.jobs[0]} && q'.jobs == q.jobs[1..])
  {
    ReachableInv(q, maxQueue);
  }

  /** A dialog that closes after the disposal answers nobody and shows nothing. */
  lemma ClosingAfterDisposal(q: Queue, maxQueue: nat, job: nat, ok: bool)
    requires Reachable(q, maxQueue) && job in q.running && q.disposed
    ensures var q' := Next(q, maxQueue, Closed(job, ok));
            q'.running == {} && q'.jobs == [] && q'.resolved == q.resolved && q'.values == q.values && q'.disposed
  {
    ReachableInv(q, maxQueue);
  }

  lemma ClosedDialogIsIgnored(q: Queue, maxQueue: nat, job: nat, ok: bool)
    requires job !in q.running
    ensures Next(q, maxQueue, Closed(job, ok)) == q
  {
  }

  /** A disposal answers every job that was not answered, with no value; the open dialog stays open. */
  lemma DisposalAnswersAll(q: Queue, maxQueue: nat)
    requires Reachable(q, maxQueue)
    ensures var q' := Next(q, maxQueue, Disposed);
            && q'.disposed && q'.jobs == [] && q'.running == q.running && q'.values == q.values && q'.accepted == q.accepted
            && forall job :: 0 <= job < q.accepted ==> q'.resolved[job] == 1
  {
    ReachableInv(q, maxQueue);
    if !q.disposed { DisposeCounts(q, maxQueue); }
  }

  // ---- every job gets its turn ----

  /** The dialogs of some jobs are closed one by one, each with a value. */
  function ClosingAll(from: nat, n: nat): seq<Event>
    decreases n
  {
    if n == 0 then [] else [Closed(from, true)] + ClosingAll(from + 1, n - 1)
  }

  predicate OnlyClosed(events: seq<Event>) {
    forall i :: 0 <= i < |events| ==> events[i].Closed?
  }

  /** If every dialog that opens is closed with a value, every accepted job is shown in turn and gets its value. */
  lemma EveryJobIsShown(q: Queue, maxQueue: nat, job: nat)
    requires Reachable(q, maxQueue) && !q.disposed && (job in q.running || job in q.jobs)
    ensures exists events: seq<Event> :: OnlyClosed(events) && job in Run(q, maxQueue, events).values
  {
    ReachableInv(q, maxQueue);
    var first := q.active.value;
    ShownInTurn(q, maxQueue, first, job - first + 1);
    ClosingCloses(first, job - first + 1);
  }

  lemma {:induction false} ClosingCloses(from: nat, n: nat)
    ensures OnlyClosed(ClosingAll(from, n))
    decreases n
  {
    if n > 0 { ClosingCloses(from + 1, n - 1); }
  }

  lemma ShownNext(q: Queue, maxQueue: nat, job: nat)
    requires Inv(q, maxQueue) && !q.disposed && q.active == Some(job)
    ensures var q' := Next(q, maxQueue, Closed(job, true));
            && Inv(q', maxQueue) && job in q'.values && !q'.disposed
            && (q.jobs != [] ==> q'.active == Some(job + 1) && |q'.jobs| == |q.jobs| - 1)
  {
    CompleteKeeps(q, maxQueue, job, true);
  }

  lemma {:induction false} ShownInTurn(q: Queue, maxQueue: nat, job: nat, n: nat)
    requires Inv(q, maxQueue) && !q.disposed && q.active == Some(job) && 0 < n <= |q.jobs| + 1
    ensures job + n - 1 in Run(q, maxQueue, ClosingAll(job, n)).values
    decreases n, 1
  {
    ShownNext(q, maxQueue, job);
    ClosingFirst(job, n);
    ThenShown(q, maxQueue, job, n, Next(q, maxQueue, Closed(job, true)));
  }

  lemma ClosingFirst(from: nat, n: nat)
    requires n > 0
    ensures var events := ClosingAll(from, n);
            events != [] && events[0] == Closed(from, true) && events[1..] == ClosingAll(from + 1, n - 1)
  {
  }

  lemma {:induction false} ThenShown(q: Queue, maxQueue: nat, job: nat, n: nat, q': Queue)
    requires n > 0 && Inv(q', maxQueue) && job in q'.values && !q'.disposed && q' == Next(q, maxQueue, Closed(job, true))
    requires n > 1 ==> q'.active == Some(job + 1) && n <= |q'.jobs| + 2
    ensures job + n - 1 in Run(q, maxQueue, ClosingAll(job, n)).values
    decreases n, 0
  {
    ClosingFirst(job, n);
    if n == 1 {
      ValuesStay(q', maxQueue, ClosingAll(job + 1, n - 1), job);
    } else {
      ShownInTurn(q', maxQueue, job + 1, n - 1);
    }
  }

  lemma {:induction false} ValuesStay(q: Queue, maxQueue: nat, events: seq<Event>, job: nat)
    requires job in q.values
    ensures job in Run(q, maxQueue, events).values
    decreases |events|
  {
    if events != [] { ValuesStay(Next(q, maxQueue, events[0]), maxQueue, events[1..], job); }
  }

  // ---- surfaces ----

  ghost predicate ReachableController(c: Controller) {
    exists steps :: Leads(Made(c.maxQueue), steps, c)
  }

  lemma ControllerHolds(c: Controller)
    requires ReachableController(c)
    ensures ControllerInv(c)
  {
    var steps :| Leads(Made(c.maxQueue), steps, c);
    LeadsKeeps(Made(c.maxQueue), steps, c);
  }

  /** The queue a surface uses. */
  function QueueOf(c: Controller, s: Surface): Queue
    requires Indexed(c) && s in c.surfaces
  {
    c.queues[c.surfaces[s]]
  }

  /** A request of a surface goes to the queue of that surface, and no other queue notices. */
  lemma RequestReachesItsSurface(c: Controller, s: Surface)
    requires ReachableController(c) && Indexed(c) && s in c.surfaces
    ensures var c' := StepOf(c, Asks(s));
            && c'.surfaces == c.surfaces && |c'.queues| == |c.queues| && c'.disposed == c.disposed && Indexed(c')
            && QueueOf(c', s) == Next(QueueOf(c, s), c.maxQueue, Request)
            && forall i :: 0 <= i < |c.queues| && i != c.surfaces[s] ==> c'.queues[i] == c.queues[i]
  {
    ControllerHolds(c);
  }

  lemma UnknownSurfaceIsRefused(c: Controller, s: Surface)
    requires Indexed(c) && s !in c.surfaces
    ensures StepOf(c, Asks(s)) == c && StepOf(c, Drops(s)) == c
  {
  }

  /** A closed dialog goes to the queue that opened it. */
  lemma ClosingReachesItsQueue(c: Controller, i: nat, job: nat, ok: bool)
    requires Indexed(c) && i < |c.queues|
    ensures var c' := StepOf(c, Closes(i, job, ok));
            && c'.surfaces == c.surfaces && |c'.queues| == |c.queues| && c'.disposed == c.disposed
            && c'.queues[i] == Next(c.queues[i], c.maxQueue, Closed(job, ok))
            && forall k :: 0 <= k < |c.queues| && k != i ==> c'.queues[k] == c.queues[k]
  {
  }

  /** A surface that is dropped has no queue any more, and the queue it had is disposed. */
  lemma DroppedSurfaceIsDisposed(c: Controller, s: Surface)
    requires ReachableController(c) && Indexed(c) && s in c.surfaces
    ensures var c' := StepOf(c, Drops(s));
            && c'.surfaces == c.surfaces - {s} && |c'.queues| == |c.queues| && c'.disposed == c.disposed
            && c'.queues[c.surfaces[s]] == Next(QueueOf(c, s), c.maxQueue, Disposed)
            && forall k :: 0 <= k < |c.queues| && k != c.surfaces[s] ==> c'.queues[k] == c.queues[k]
  {
    ControllerHolds(c);
    assert c.surfaces[s] in c.surfaces.Values;
  }

  /** An installed surface has a new queue of its own; the queue it had before is disposed like that of a dropped surface. */
  lemma InstalledSurfaceIsServed(c: Controller, s: Surface)
    requires ReachableController(c) && Indexed(c) && !c.disposed
    ensures var dropped, c' := StepOf(c, Drops(s)), StepOf(c, Installs(s));
            && c'.surfaces == dropped.surfaces[s := |c.queues|] && c'.queues == dropped.queues + [EMPTY]
            && !c'.disposed && Indexed(c')
            && (c.maxQueue > 0 ==> QueueOf(StepOf(c', Asks(s)), s).running == {0})
  {
  }

  /** After the disposal of the controller every queue is disposed, and no surface is served or installed. */
  lemma DisposalDropsAll(c: Controller, s: Surface)
    requires ReachableController(c) && Indexed(c) && !c.disposed
    ensures var c' := StepOf(c, DropsAll);
            && c'.disposed && c'.surfaces == map[] && |c'.queues| == |c.queues| && Indexed(c')
            && (forall i :: 0 <= i < |c.queues| ==> c'.queues[i] == Next(c.queues[i], c.maxQueue, Disposed))
            && StepOf(c', Installs(s)) == c' && StepOf(c', Asks(s)) == c' && StepOf(c', DropsAll) == c'
  {
    ControllerHolds(c);
  }
}
