/** What becomes of a download, and what its waiters are told. */
module DownloadEffects {
  import opened Wrappers
  import opened Downloads

  /** A download under way: its record is not final and its end has not come. */
  predicate UnderWay(s: State, id: Id) {
    !s.disposed && id in s.records && !Terminal(s.records[id]) && id in s.handlers && s.handlers[id].Listening?
  }

  /** The bytes received: those reported, or those recorded if the report has none. */
  predicate Counts(current: Record, received: Option<nat>, n: nat) {
    n == match received case Some(reported) => reported case None => current.received
  }

  /** A download has ended with a record: it is final, its item is gone, and its waiters are told and no longer wait. */
  ghost predicate EndedWith(s: State, s': State, id: Id, r: Record) {
    && s'.records == s.records[id := r] && s'.items == s.items - {id}
    && s'.waiters == s.waiters - {id} && s'.disposed == s.disposed && s'.waits == s.waits
    && (forall w :: w in Pending(s, id) ==> w in s'.told && s'.told[w] == Some(r) && w !in s'.timers)
    && (forall w :: w !in Pending(s, id) ==> (w in s'.told <==> w in s.told) && (w in s.told ==> s'.told[w] == s.told[w]))
    && s'.resolved == s.resolved + multiset(Pending(s, id))
  }

  function Pending(s: State, id: Id): set<nat> {
    if id in s.waiters then s.waiters[id] else {}
  }

  /** A new download is listed as started; one that cannot be saved has failed at once. */
  lemma NewDownloadIsListed(s: State, id: Id)
    requires !s.disposed && id !in s.records
    ensures var begun := Next(s, Begins(id, true));
            && begun.records == s.records[id := Record(Started, 0)] && begun.items == s.items + {id}
            && UnderWay(begun, id) && begun.waiters == s.waiters && begun.told == s.told && begun.timers == s.timers
            && EndedWith(s, Next(s, Begins(id, false)), id, Record(Failed, 0))
  {
    var failed := Next(s, Begins(id, false));
    assert failed.items == s.items - {id};
    if id !in s.waiters {
      assert s.waiters - {id} == s.waiters;
    }
  }

  lemma NoDownloadBegins(s: State, id: Id, ok: bool)
    requires s.disposed || id in s.records
    ensures Next(s, Begins(id, ok)) == s
  {
  }

  /** Progress replaces the record of a download under way, and only that. */
  lemma ProgressIsRecorded(s: State, id: Id, received: Option<nat>)
    ensures var s' := Next(s, Updates(id, received));
            if !s.disposed && id in s.records && !Terminal(s.records[id]) then
              && s' == s.(records := s'.records) && s'.records.Keys == s.records.Keys
              && s'.records[id].status == Progress && Counts(s.records[id], received, s'.records[id].received)
              && forall other :: other in s.records && other != id ==> s'.records[other] == s.records[other]
            else s' == s
  {
  }

  /** A completed download ends as completed once its file is in place. */
  lemma CompletedFileIsRecorded(s: State, id: Id, received: Option<nat>, n: nat)
    requires UnderWay(s, id) && Counts(s.records[id], received, n)
    ensures EndedWith(s, Next(Next(s, Ends(id, Completed, received)), Moves(id, true)), id, Record(Completed, n))
  {
    EndsLike(s, id, Record(Completed, n));
  }

  /** If its file cannot be moved it ends as failed, once the file is removed. */
  lemma FailedMoveIsRecorded(s: State, id: Id, received: Option<nat>)
    requires UnderWay(s, id)
    ensures var failing := Next(Next(s, Ends(id, Completed, received)), Moves(id, false));
            && failing.records == s.records && failing.items == s.items && failing.waiters == s.waiters && failing.told == s.told
            && EndedWith(s, Next(failing, Removes(id)), id, Record(Failed, s.records[id].received))
  {
    EndsLike(s, id, Record(Failed, s.records[id].received));
  }

  /** A download that is cancelled or interrupted ends so once its file is removed. */
  lemma InterruptedIsRecorded(s: State, id: Id, state: Status, received: Option<nat>, n: nat)
    requires UnderWay(s, id) && !state.Completed? && Counts(s.records[id], received, n)
    ensures var end := if state == Cancelled then Cancelled else Failed;
            EndedWith(s, Next(Next(s, Ends(id, state, received)), Removes(id)), id, Record(end, n))
  {
    EndsLike(s, id, Record(if state == Cancelled then Cancelled else Failed, n));
  }

  lemma EndsLike(s: State, id: Id, r: Record)
    requires id in s.records
    ensures forall h :: EndedWith(s, Conclude(s.(handlers := h), id, r), id, r)
  {
    if id !in s.waiters { assert s.waiters - {id} == s.waiters; }
    forall h ensures EndedWith(s, Conclude(s.(handlers := h), id, r), id, r) {
      var after := Conclude(s.(handlers := h), id, r);
      assert after.resolved == s.resolved + multiset(Pending(s, id));
    }
  }

  /** After the disposal the end of a download only removes its file and drops its item. */
  lemma EndAfterDisposal(s: State, id: Id, state: Status, received: Option<nat>)
    requires s.disposed && id in s.records && id in s.handlers && s.handlers[id].Listening?
    ensures var s' := Next(Next(s, Ends(id, state, received)), Removes(id));
            s' == s.(items := s.items - {id}, handlers := s'.handlers) && s'.handlers == s.handlers[id := Discarded]
  {
  }

  /** Nothing about a download that has ended is changed by its events. */
  lemma EndedStays(s: State, id: Id, state: Status, received: Option<nat>, ok: bool)
    requires id in s.records && id in s.handlers && s.handlers[id].Finished? && Terminal(s.records[id])
    ensures Next(s, Begins(id, ok)) == s && Next(s, Updates(id, received)) == s && Next(s, Ends(id, state, received)) == s
    ensures Next(s, Moves(id, ok)) == s && Next(s, Removes(id)) == s
  {
  }

  // ---- waiters ----

  /** Who waits for a download that has ended is told its record at once. */
  lemma EndedIsToldAtOnce(s: State, w: nat, id: Id)
    requires w !in s.waits && w !in s.timers && id in s.records && Terminal(s.records[id])
    ensures var s' := Next(s, Waits(w, id));
            && s'.told == s.told[w := Some(s.records[id])] && s'.resolved == s.resolved + multiset{w}
            && s'.waiters == s.waiters && s'.timers == s.timers && s'.records == s.records
  {
  }

  /** Else a waiter is added to those of the download, with a timer. */
  lemma WaiterIsAdded(s: State, w: nat, id: Id)
    requires w !in s.waits && w !in s.timers && (id in s.records ==> !Terminal(s.records[id])) && !s.disposed
    ensures var s' := Next(s, Waits(w, id));
            && Pending(s', id) == Pending(s, id) + {w} && s'.timers == s.timers + {w} && s'.waits == s.waits[w := id]
            && s'.told == s.told && s'.resolved == s.resolved
            && forall other :: other != id ==> Pending(s', other) == Pending(s, other)
  {
  }

  /** After the disposal nobody waits. */
  lemma NobodyWaitsAfterDisposal(s: State, w: nat, id: Id)
    requires w !in s.waits && w !in s.timers && (id in s.records ==> !Terminal(s.records[id])) && s.disposed
    ensures var s' := Next(s, Waits(w, id));
            s'.told == s.told[w := None] && s'.resolved == s.resolved + multiset{w} && s'.waiters == s.waiters && s'.timers == s.timers
  {
  }

  /** A waiter whose time is over is told nothing. */
  lemma ExpiredWaiterIsTold(s: State, w: nat)
    requires w in s.timers && w in s.waits
    ensures var s' := Next(s, Expires(w));
            && s'.told == s.told[w := None] && s'.resolved == s.resolved + multiset{w} && s'.timers == s.timers - {w}
            && s'.records == s.records
  {
  }

  /** All others wait on. */
  lemma OthersWaitOn(s: State, w: nat, id: Id)
    requires w in s.timers && w in s.waits
    ensures Pending(Next(s, Expires(w)), id) == if id == s.waits[w] then Pending(s, id) - {w} else Pending(s, id)
  {
  }

  /** A disposal tells every waiter that waits for nothing any more. */
  lemma DisposalTellsAll(s: State, w: nat, id: Id)
    requires !s.disposed
    ensures var s' := Next(s, Disposes);
            && s'.disposed && s'.waiters == map[] && s'.records == s.records && s'.items == s.items && s'.handlers == s.handlers
            && (w in Pending(s, id) ==> w in s'.told && s'.told[w] == None && w !in s'.timers && s'.resolved[w] == s.resolved[w] + 1)
  {
    if w in Pending(s, id) { assert w in Registered(s.waiters); }
  }
}
