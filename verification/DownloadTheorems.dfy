/** What the download controller keeps over every run. */
module DownloadTheorems {
  import opened Wrappers
  import opened Downloads

  // ---- records, items and handlers ----

  predicate HandlerOk(r: Record, h: Handler, live: bool, disposed: bool) {
    && (Terminal(r) <==> h.Finished?)
    && (live <==> !h.Finished? && !h.Discarded?)
    && (h.Discarding? || h.Discarded? ==> disposed)
    && (h.Committing? || h.Removing? ==> Terminal(h.done))
  }

  ghost predicate RecordsOk(s: State) {
    && s.handlers.Keys == s.records.Keys && s.items <= s.records.Keys
    && forall id :: id in s.records ==> HandlerOk(s.records[id], s.handlers[id], id in s.items, s.disposed)
  }

  lemma ConcludeKeepsRecords(s: State, id: Id, r: Record)
    requires RecordsOk(s) && id in s.records && Terminal(r)
    ensures RecordsOk(Conclude(s, id, r))
  {
  }

  function Begun(s: State, id: Id): State {
    s.(records := s.records[id := Record(Started, 0)], items := s.items + {id}, handlers := s.handlers[id := Listening])
  }

  lemma BeginKeepsRecords(s: State, id: Id, ok: bool)
    requires RecordsOk(s)
    ensures RecordsOk(Begin(s, id, ok))
  {
    if !s.disposed && id !in s.records {
      assert RecordsOk(Begun(s, id));
      ConcludeKeepsRecords(Begun(s, id), id, Record(Failed, 0));
    }
  }

  lemma EndKeepsRecords(s: State, id: Id, state: Status, received: Option<nat>)
    requires RecordsOk(s)
    ensures RecordsOk(Done(s, id, state, received))
  {
  }

  lemma MoveKeepsRecords(s: State, id: Id, ok: bool)
    requires RecordsOk(s)
    ensures RecordsOk(Moved(s, id, ok))
  {
    if id in s.records && s.handlers[id].Committing? { ConcludeKeepsRecords(s, id, s.handlers[id].done); }
  }

  lemma RemoveKeepsRecords(s: State, id: Id)
    requires RecordsOk(s)
    ensures RecordsOk(Removed(s, id))
  {
    if id in s.records && s.handlers[id].Removing? { ConcludeKeepsRecords(s, id, s.handlers[id].done); }
    if id in s.records && s.handlers[id].Failing? { ConcludeKeepsRecords(s, id, s.records[id].(status := Failed)); }
  }

  // ---- waiters ----

  ghost predicate Holds(waiters: map<Id, set<nat>>, w: nat, id: Id) {
    id in waiters && w in waiters[id]
  }

  /** A waiter is registered, under what it waits for, exactly while its timer runs; then it is not resolved. */
  ghost predicate WaitersOk(s: State) {
    && (forall w, id :: Holds(s.waiters, w, id) ==> w in s.timers && w in s.waits && s.waits[w] == id)
    && (forall w :: w in s.timers ==> w in s.waits && Holds(s.waiters, w, s.waits[w]))
    && (forall w :: s.resolved[w] == if w in s.waits && w !in s.timers then 1 else 0)
    && (forall w :: w in s.told <==> w in s.waits && w !in s.timers)
    && (s.disposed ==> s.timers == {})
  }

  /** No waiter is registered for a terminal download, and what a waiter was told is its own terminal record. */
  ghost predicate AnswersOk(s: State) {
    && (forall id :: id in s.records && Terminal(s.records[id]) ==> id !in s.waiters)
    && (forall w :: w in s.told && s.told[w].Some? ==>
          && w in s.waits && s.waits[w] in s.records
          && Terminal(s.told[w].value) && s.records[s.waits[w]] == s.told[w].value)
  }

  ghost predicate Inv(s: State) {
    RecordsOk(s) && WaitersOk(s) && AnswersOk(s)
  }

  lemma {:induction false} CountSet(who: set<nat>)
    ensures forall w :: multiset(who)[w] == if w in who then 1 else 0
  {
  }

  /** Waiters that are taken off the table are told once. */
  lemma TellKeeps(s: State, who: set<nat>, what: Option<Record>, kept: map<Id, set<nat>>)
    requires WaitersOk(s) && who <= s.timers
    requires forall w, id :: Holds(kept, w, id) <==> Holds(s.waiters, w, id) && w !in who
    ensures WaitersOk(Tell(s.(waiters := kept), who, what))
  {
    CountSet(who);
    var t := Tell(s.(waiters := kept), who, what);
    forall w | w in t.timers ensures w in t.waits && Holds(t.waiters, w, t.waits[w]) {
      assert Holds(s.waiters, w, s.waits[w]);
    }
  }

  lemma ResolveKeeps(s: State, id: Id, r: Record)
    requires WaitersOk(s)
    ensures WaitersOk(ResolveWaiters(s, id, r))
  {
    if id in s.waiters {
      var who := s.waiters[id];
      forall w | w in who ensures w in s.timers { assert Holds(s.waiters, w, id); }
      var kept := s.waiters - {id};
      forall w, k ensures Holds(kept, w, k) <==> Holds(s.waiters, w, k) && w !in who {
        if Holds(s.waiters, w, k) && w in who { assert Holds(s.waiters, w, id); }
      }
      TellKeeps(s, who, Some(r), kept);
    }
  }

  lemma ExpireKeeps(s: State, w: nat)
    requires WaitersOk(s)
    ensures WaitersOk(Expire(s, w))
  {
    if w in s.timers {
      var id := s.waits[w];
      assert Holds(s.waiters, w, id);
      var kept := if s.waiters[id] - {w} == {} then s.waiters - {id} else s.waiters[id := s.waiters[id] - {w}];
      forall v, k ensures Holds(kept, v, k) <==> Holds(s.waiters, v, k) && v !in {w} {
        if Holds(s.waiters, v, k) && v != w && k == id { assert v in s.waiters[id] - {w}; }
      }
      TellKeeps(s, {w}, None, kept);
    }
  }

  lemma DisposeKeeps(s: State)
    requires WaitersOk(s)
    ensures WaitersOk(Dispose(s))
  {
    var who := Registered(s.waiters);
    forall w ensures w in who <==> w in s.timers {
      if w in s.timers { assert Holds(s.waiters, w, s.waits[w]); }
      if w in who {
        var id :| id in s.waiters && w in s.waiters[id];
        assert Holds(s.waiters, w, id);
      }
    }
    assert who == s.timers;
    if !s.disposed {
      forall w, id | Holds(s.waiters, w, id) ensures w in who { }
      TellKeeps(s, who, None, map[]);
    }
  }

  lemma AnsweredAtOnceKeeps(s: State, w: nat, id: Id, what: Option<Record>)
    requires WaitersOk(s) && w !in s.waits
    ensures WaitersOk(Tell(s.(waits := s.waits[w := id]), {w}, what))
  {
    CountSet({w});
    var t := Tell(s.(waits := s.waits[w := id]), {w}, what);
    forall v, k | Holds(t.waiters, v, k) ensures v in t.timers && v in t.waits && t.waits[v] == k {
      assert Holds(s.waiters, v, k);
    }
    forall v | v in t.timers ensures v in t.waits && Holds(t.waiters, v, t.waits[v]) {
      assert Holds(s.waiters, v, s.waits[v]);
    }
  }

  lemma RegisteredKeeps(s: State, w: nat, id: Id, pending: set<nat>)
    requires WaitersOk(s) && w !in s.waits && !s.disposed
    requires pending == (if id in s.waiters then s.waiters[id] else {}) + {w}
    ensures WaitersOk(s.(waits := s.waits[w := id], waiters := s.waiters[id := pending], timers := s.timers + {w}))
  {
    var t := s.(waits := s.waits[w := id], waiters := s.waiters[id := pending], timers := s.timers + {w});
    forall v, k | Holds(t.waiters, v, k) ensures v in t.timers && v in t.waits && t.waits[v] == k {
      assert Holds(s.waiters, v, k) || (v == w && k == id);
    }
    forall v | v in t.timers ensures v in t.waits && Holds(t.waiters, v, t.waits[v]) {
      if v != w { assert Holds(s.waiters, v, s.waits[v]); }
    }
  }

  lemma WaitKeeps(s: State, w: nat, id: Id)
    requires WaitersOk(s)
    ensures WaitersOk(Wait(s, w, id))
  {
    if w !in s.waits {
      if id in s.records && Terminal(s.records[id]) {
        AnsweredAtOnceKeeps(s, w, id, Some(s.records[id]));
      } else if s.disposed {
        AnsweredAtOnceKeeps(s, w, id, None);
      } else {
        RegisteredKeeps(s, w, id, (if id in s.waiters then s.waiters[id] else {}) + {w});
      }
    }
  }

  // ---- answers ----

  lemma ConcludeKeepsAnswers(s: State, id: Id, r: Record)
    requires WaitersOk(s) && AnswersOk(s) && id in s.records && !Terminal(s.records[id]) && Terminal(r)
    ensures AnswersOk(Conclude(s, id, r))
  {
    var t := Conclude(s, id, r);
    forall w | w in t.told && t.told[w].Some?
      ensures w in t.waits && t.waits[w] in t.records && Terminal(t.told[w].value) && t.records[t.waits[w]] == t.told[w].value
    {
      if id in s.waiters && w in s.waiters[id] { assert Holds(s.waiters, w, id); }
    }
  }

  lemma BeginKeepsAnswers(s: State, id: Id, ok: bool)
    requires WaitersOk(s) && AnswersOk(s)
    ensures AnswersOk(Begin(s, id, ok))
  {
    if !s.disposed && id !in s.records {
      assert AnswersOk(Begun(s, id));
      ConcludeKeepsAnswers(Begun(s, id), id, Record(Failed, 0));
    }
  }

  lemma MoveKeepsAnswers(s: State, id: Id, ok: bool)
    requires Inv(s)
    ensures AnswersOk(Moved(s, id, ok))
  {
    if id in s.records && s.handlers[id].Committing? { ConcludeKeepsAnswers(s, id, s.handlers[id].done); }
  }

  lemma RemoveKeepsAnswers(s: State, id: Id)
    requires Inv(s)
    ensures AnswersOk(Removed(s, id))
  {
    if id in s.records && s.handlers[id].Removing? { ConcludeKeepsAnswers(s, id, s.handlers[id].done); }
    if id in s.records && s.handlers[id].Failing? { ConcludeKeepsAnswers(s, id, s.records[id].(status := Failed)); }
  }

  lemma AnswerAtOnceKeeps(s: State, w: nat, id: Id, what: Option<Record>)
    requires AnswersOk(s) && w !in s.waits
    requires what.Some? ==> id in s.records && what.value == s.records[id] && Terminal(what.value)
    ensures AnswersOk(Tell(s.(waits := s.waits[w := id]), {w}, what))
  {
  }

  lemma RegisterKeepsAnswers(s: State, w: nat, id: Id, pending: set<nat>)
    requires AnswersOk(s) && w !in s.waits && !(id in s.records && Terminal(s.records[id]))
    ensures AnswersOk(s.(waits := s.waits[w := id], waiters := s.waiters[id := pending], timers := s.timers + {w}))
  {
  }

  lemma WaitKeepsAnswers(s: State, w: nat, id: Id)
    requires AnswersOk(s)
    ensures AnswersOk(Wait(s, w, id))
  {
    if w !in s.waits {
      if id in s.records && Terminal(s.records[id]) {
        AnswerAtOnceKeeps(s, w, id, Some(s.records[id]));
      } else if s.disposed {
        AnswerAtOnceKeeps(s, w, id, None);
      } else {
        RegisterKeepsAnswers(s, w, id, (if id in s.waiters then s.waiters[id] else {}) + {w});
      }
    }
  }

  lemma ExpireKeepsAnswers(s: State, w: nat)
    requires AnswersOk(s)
    ensures AnswersOk(Expire(s, w))
  {
  }

  lemma DisposeKeepsAnswers(s: State)
    requires AnswersOk(s)
    ensures AnswersOk(Dispose(s))
  {
  }

  lemma UpdateKeepsAnswers(s: State, id: Id, received: Option<nat>)
    requires AnswersOk(s)
    ensures AnswersOk(Update(s, id, received))
  {
  }

  // ---- every run ----

  lemma ConcludeKeepsWaiters(s: State, id: Id, r: Record)
    requires WaitersOk(s)
    ensures WaitersOk(Conclude(s, id, r))
  {
    ResolveKeeps(s.(records := s.records[id := r], items := s.items - {id}, handlers := s.handlers[id := Finished]), id, r);
  }

  lemma BeginKeepsWaiters(s: State, id: Id, ok: bool)
    requires WaitersOk(s)
    ensures WaitersOk(Begin(s, id, ok))
  {
    ConcludeKeepsWaiters(Begun(s, id), id, Record(Failed, 0));
  }

  lemma MoveKeepsWaiters(s: State, id: Id, ok: bool)
    requires WaitersOk(s)
    ensures WaitersOk(Moved(s, id, ok))
  {
    if id in s.handlers && s.handlers[id].Committing? { ConcludeKeepsWaiters(s, id, s.handlers[id].done); }
  }

  lemma RemoveKeepsWaiters(s: State, id: Id)
    requires WaitersOk(s)
    ensures WaitersOk(Removed(s, id))
  {
    if id in s.records && id in s.handlers {
      match s.handlers[id]
      case Removing(done) => ConcludeKeepsWaiters(s, id, done);
      case Failing => if !Terminal(s.records[id]) { ConcludeKeepsWaiters(s, id, s.records[id].(status := Failed)); }
      case _ =>
    }
  }

  lemma NextKeepsWaiters(s: State, e: Event)
    requires WaitersOk(s)
    ensures WaitersOk(Next(s, e))
  {
    match e
    case Begins(id, ok) => BeginKeepsWaiters(s, id, ok);
    case Updates(_, _) =>
    case Ends(_, _, _) =>
    case Moves(id, ok) => MoveKeepsWaiters(s, id, ok);
    case Removes(id) => RemoveKeepsWaiters(s, id);
    case Waits(w, id) => WaitKeeps(s, w, id);
    case Expires(w) => ExpireKeeps(s, w);
    case Disposes => DisposeKeeps(s);
  }

  lemma NextKeepsRecords(s: State, e: Event)
    requires RecordsOk(s)
    ensures RecordsOk(Next(s, e))
  {
    match e
    case Begins(id, ok) => BeginKeepsRecords(s, id, ok);
    case Ends(id, state, received) => EndKeepsRecords(s, id, state, received);
    case Moves(id, ok) => MoveKeepsRecords(s, id, ok);
    case Removes(id) => RemoveKeepsRecords(s, id);
    case Updates(_, _) =>
    case Waits(_, _) =>
    case Expires(_) =>
    case Disposes =>
  }

  lemma NextKeepsAnswers(s: State, e: Event)
    requires Inv(s)
    ensures AnswersOk(Next(s, e))
  {
    match e
    case Begins(id, ok) => BeginKeepsAnswers(s, id, ok);
    case Updates(id, received) => UpdateKeepsAnswers(s, id, received);
    case Ends(_, _, _) =>
    case Moves(id, ok) => MoveKeepsAnswers(s, id, ok);
    case Removes(id) => RemoveKeepsAnswers(s, id);
    case Waits(w, id) => WaitKeepsAnswers(s, w, id);
    case Expires(w) => ExpireKeepsAnswers(s, w);
    case Disposes => DisposeKeepsAnswers(s);
  }

  lemma {:induction false} RunKeepsInv(s: State, events: seq<Event>)
    requires Inv(s)
    ensures Inv(Run(s, events))
    decreases |events|
  {
    if events != [] {
      NextKeepsRecords(s, events[0]);
      NextKeepsWaiters(s, events[0]);
      NextKeepsAnswers(s, events[0]);
      RunKeepsInv(Next(s, events[0]), events[1..]);
    }
  }

  /**
   In every run: before disposal the live items are exactly the downloads that have not ended; no waiter is registered
   for one that has; a waiter is resolved at most once, and exactly once when it is no longer registered; and what it
   is told is the terminal record of its own download, or nothing.
   */
  lemma WaitersAndItemsAgree(events: seq<Event>, id: Id, w: nat)
    ensures var s := Run(START, events);
            && (!s.disposed ==> (id in s.items <==> id in s.records && !Terminal(s.records[id])))
            && (id in s.records && Terminal(s.records[id]) ==> id !in s.items && id !in s.waiters)
            && s.resolved[w] == (if w in s.waits && !Holds(s.waiters, w, s.waits[w]) then 1 else 0)
            && (w in s.told && s.told[w].Some? ==>
                  w in s.waits && s.waits[w] in s.records && s.told[w] == Some(s.records[s.waits[w]]) && Terminal(s.told[w].value))
  {
    RunKeepsInv(START, events);
    var s := Run(START, events);
    if w in s.waits && Holds(s.waiters, w, s.waits[w]) { assert w in s.timers; }
  }

  lemma ConcludeRecords(s: State, id: Id, r: Record)
    ensures Conclude(s, id, r).records == s.records[id := r]
  {
  }

  /** What a download's own event can change; the records of other downloads are out of its reach. */
  lemma OnlyItsOwnRecord(s: State, e: Event, id: Id)
    requires id in s.records && (e.Waits? || e.Expires? || e.Disposes? || e.id != id)
    ensures id in Next(s, e).records && Next(s, e).records[id] == s.records[id]
  {
    match e
    case Begins(k, _) => ConcludeRecords(Begun(s, k), k, Record(Failed, 0));
    case Moves(k, _) => if k in s.handlers && s.handlers[k].Committing? { ConcludeRecords(s, k, s.handlers[k].done); }
    case Removes(k) =>
      if k in s.handlers && s.handlers[k].Removing? { ConcludeRecords(s, k, s.handlers[k].done); }
      if k in s.records { ConcludeRecords(s, k, s.records[k].(status := Failed)); }
    case Updates(_, _) =>
    case Ends(_, _, _) =>
    case Waits(_, _) =>
    case Expires(_) =>
    case Disposes =>
  }

  lemma TerminalStays(s: State, e: Event, id: Id)
    requires RecordsOk(s) && id in s.records && Terminal(s.records[id])
    requires (e.Begins? || e.Updates? || e.Ends? || e.Moves? || e.Removes?) && e.id == id
    ensures Next(s, e).records == s.records
  {
    assert s.handlers[id].Finished?;
  }

  lemma NextKeepsTerminal(s: State, e: Event, id: Id)
    requires RecordsOk(s) && id in s.records && Terminal(s.records[id])
    ensures id in Next(s, e).records && Next(s, e).records[id] == s.records[id]
  {
    if e.Waits? || e.Expires? || e.Disposes? || e.id != id {
      OnlyItsOwnRecord(s, e, id);
    } else {
      TerminalStays(s, e, id);
    }
  }

  lemma {:induction false} TerminalStaysOverARun(s: State, events: seq<Event>, id: Id)
    requires Inv(s) && id in s.records && Terminal(s.records[id])
    ensures id in Run(s, events).records && Run(s, events).records[id] == s.records[id]
    decreases |events|
  {
    if events != [] {
      NextKeepsTerminal(s, events[0], id);
      NextKeepsRecords(s, events[0]);
      NextKeepsWaiters(s, events[0]);
      NextKeepsAnswers(s, events[0]);
      TerminalStaysOverARun(Next(s, events[0]), events[1..], id);
    }
  }

  /** A terminal record never changes again, whatever happened before and happens after. */
  lemma TerminalIsFinal(before: seq<Event>, after: seq<Event>, id: Id)
    requires var s := Run(START, before); id in s.records && Terminal(s.records[id])
    ensures var s := Run(START, before);
            id in Run(s, after).records && Run(s, after).records[id] == s.records[id]
  {
    RunKeepsInv(START, before);
    TerminalStaysOverARun(Run(START, before), after, id);
  }

  lemma ConcludeTells(s: State, id: Id, r: Record, w: nat)
    requires w !in s.told && w in Conclude(s, id, r).told
    ensures Conclude(s, id, r).told[w] == Some(r)
  {
  }

  lemma EndingTells(s: State, e: Event, w: nat)
    requires w !in s.told && w in Next(s, e).told && (e.Begins? || e.Moves? || e.Removes?)
    ensures Next(s, e).told[w].Some?
  {
    match e
    case Begins(id, _) => ConcludeTells(Begun(s, id), id, Record(Failed, 0), w);
    case Moves(id, _) => ConcludeTells(s, id, s.handlers[id].done, w);
    case Removes(id) =>
      if s.handlers[id].Removing? { ConcludeTells(s, id, s.handlers[id].done, w); }
      else { ConcludeTells(s, id, s.records[id].(status := Failed), w); }
  }

  /** A waiter is told nothing only when its timer fires or the controller is, or was, disposed. */
  lemma ToldNothingOnlyLate(s: State, e: Event, w: nat)
    requires w !in s.told && w in Next(s, e).told && Next(s, e).told[w].None?
    ensures e == Expires(w) || e == Disposes || (s.disposed && e.Waits? && e.w == w)
  {
    if e.Begins? || e.Moves? || e.Removes? { EndingTells(s, e, w); }
  }
}
