/** What the service queue does for those who ask, in every state that some run reaches. */
module ServiceEffects {
  import opened Wrappers
  import opened ServiceQueues

  ghost predicate Reachable(q: Queue) {
    exists events :: Run(IDLE, events) == q
  }

  lemma ReachableHolds(q: Queue) returns (k: nat)
    requires Reachable(q)
    ensures Progress(q, k) && Fresh(q)
  {
    var events :| Run(IDLE, events) == q;
    k := RunKeeps(IDLE, events, 0);
  }

  /** The operation behind all that were requested. */
  ghost predicate Requested(q: Queue, q': Queue, kind: Kind) {
    && |q'.ops| == |q.ops| + 1 && q'.ops[..|q.ops|] == q.ops && q'.tail == Some(|q.ops|)
    && q'.ops[|q.ops|].kind == kind && q'.ops[|q.ops|].status == Waiting
    && q'.ops[|q.ops|].after == (if |q.ops| == 0 then None else Some(|q.ops| - 1))
    && q'.moments == q.moments
  }

  // ---- inspections ----

  /** While an inspection is shared every caller gets it, and no operation is added. */
  lemma SharedInspectionIsHandedOut(q: Queue, i: nat)
    requires q.inspection == Some(i)
    ensures Next(q, Inspected) == q.(handed := q.handed + [Hand(i, |q.ops|)])
  {
  }

  /** Without a shared one a caller gets a new inspection, which waits behind everything and is shared from then on. */
  lemma NewInspectionIsHandedOut(q: Queue)
    requires Reachable(q) && q.inspection.None?
    ensures var q' := Next(q, Inspected);
            && Requested(q, q', Inspection) && q'.inspection == Some(|q.ops|)
            && q'.handed == q.handed + [Hand(|q.ops|, |q.ops|)]
  {
    var k := ReachableHolds(q);
  }

  /** A settled inspection is forgotten, so the next caller gets a new one that has not begun. */
  lemma SettledInspectionIsNotHandedOutAgain(q: Queue, i: nat)
    requires Reachable(q) && q.inspection == Some(i) && HasSettled(q.ops, i)
    ensures var forgot := Next(q, Forgets(i));
            var q' := Next(forgot, Inspected);
            && forgot == q.(inspection := None) && Requested(q, q', Inspection) && q'.inspection == Some(|q.ops|)
            && q'.handed == q.handed + [Hand(|q.ops|, |q.ops|)]
  {
    var k := ReachableHolds(q);
  }

  /** Forgetting an inspection that is not the shared one changes nothing, so a newer one stays shared. */
  lemma NewerInspectionStaysShared(q: Queue, i: nat)
    requires q.inspection != Some(i)
    ensures Next(q, Forgets(i)) == q
  {
  }

  /** An inspection under way stays shared. */
  lemma UnsettledInspectionStaysShared(q: Queue, i: nat)
    requires i < |q.ops| && (q.ops[i].status == Waiting || q.ops[i].status == Running)
    ensures Next(q, Forgets(i)) == q
  {
  }

  // ---- writes ----

  /** A write waits behind everything, and the inspection that was shared is not handed out any more. */
  lemma WriteIsQueued(q: Queue)
    requires Reachable(q)
    ensures var q' := Next(q, Acted);
            Requested(q, q', Write) && q'.inspection.None? && q'.handed == q.handed
  {
    var k := ReachableHolds(q);
  }

  // ---- progress ----

  /** The first operation that has not settled can go on: it starts if it waits, and settles as it is told if it runs. */
  lemma QueueNeverStalls(q: Queue, i: nat, ok: bool)
    requires Reachable(q) && i < |q.ops| && !HasSettled(q.ops, i) && forall j :: 0 <= j < i ==> HasSettled(q.ops, j)
    ensures q.ops[i].status == Waiting ==>
              Next(q, Starts(i)) == q.(ops := q.ops[i := q.ops[i].(status := Running)], moments := q.moments + [Started(i)])
    ensures q.ops[i].status == Running ==>
              Next(q, Settles(i, ok)) ==
              q.(ops := q.ops[i := q.ops[i].(status := if ok then Fulfilled else Rejected)], moments := q.moments + [Settled(i)])
  {
    var k := ReachableHolds(q);
    assert i > 0 ==> HasSettled(q.ops, i - 1);
    assert i < k ==> HasSettled(q.ops, i);
  }
}
