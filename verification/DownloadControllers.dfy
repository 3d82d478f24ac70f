/** The download controller as the source updates it; an async method is one method per stretch between awaits. */
module DownloadControllers {
  import opened Wrappers
  import opened Downloads

  lemma TellNobody(s: State, who: set<nat>, what: Option<Record>)
    requires who == {}
    ensures Tell(s, who, what) == s
  {
    assert s.told + map[] == s.told;
  }

  /** Telling one of those that are left. */
  lemma TellOneMore(s: State, who: set<nat>, rest: set<nat>, w: nat, what: Option<Record>)
    requires w in rest && rest <= who
    ensures var t, u := Tell(s, who - rest, what), Tell(s, who - (rest - {w}), what);
            u.timers == t.timers - {w} && u.resolved == t.resolved + multiset{w} && u.told == t.told[w := what]
  {
    var done := who - rest;
    assert who - (rest - {w}) == done + {w};
    assert multiset(done + {w}) == multiset(done) + multiset{w};
  }

  class BrowserDownloadController {
    var records: map<Id, Record>
    var items: set<Id>
    var waiters: map<Id, set<nat>>
    var disposed: bool
    /** The timers that are set, and where each done handler waits. */
    var timers: set<nat>
    var handlers: map<Id, Handler>
    ghost var waits: map<nat, Id>
    ghost var resolved: multiset<nat>
    ghost var told: map<nat, Option<Record>>

    ghost function Model(): State
      reads this
    {
      State(records, items, handlers, waiters, timers, disposed, waits, resolved, told)
    }

    constructor ()
      ensures Model() == START
    {
      records, items, waiters, disposed, timers, handlers := map[], {}, map[], false, {}, map[];
      waits, resolved, told := map[], multiset{}, map[];
    }

    method ResolveOne(w: nat, what: Option<Record>)
      modifies this`timers, this`resolved, this`told
      ensures timers == old(timers) - {w} && resolved == old(resolved) + multiset{w} && told == old(told)[w := what]
    {
      timers := timers - {w};
      resolved, told := resolved + multiset{w}, told[w := what];
    }

    /** Stops the timers of some waiters and resolves them, one by one. */
    method ResolveEach(who: set<nat>, what: Option<Record>)
      modifies this`timers, this`resolved, this`told
      ensures Model() == Tell(old(Model()), who, what)
    {
      var rest := who;
      ghost var start := Model();
      TellNobody(start, who - rest, what);
      while rest != {}
        invariant rest <= who
        invariant timers == Tell(start, who - rest, what).timers
        invariant resolved == Tell(start, who - rest, what).resolved
        invariant told == Tell(start, who - rest, what).told
        decreases |rest|
      {
        var w :| w in rest;
        TellOneMore(start, who, rest, w, what);
        ResolveOne(w, what);
        rest := rest - {w};
      }
      assert who - rest == who;
    }

    method ResolveWaiting(id: Id, r: Record)
      modifies this`waiters, this`timers, this`resolved, this`told
      ensures Model() == ResolveWaiters(old(Model()), id, r)
    {
      if id !in waiters { return; }
      var pending := waiters[id];
      waiters := waiters - {id};
      ResolveEach(pending, Some(r));
    }

    method ConcludeDownload(id: Id, r: Record)
      modifies this
      ensures Model() == Conclude(old(Model()), id, r)
    {
      records, items, handlers := records[id := r], items - {id}, handlers[id := Finished];
      ResolveWaiting(id, r);
    }

    method WaitFor(w: nat, id: Id)
      requires w !in waits
      modifies this
      ensures Model() == Wait(old(Model()), w, id)
    {
      waits := waits[w := id];
      if id in records && Terminal(records[id]) {
        ResolveEach({w}, Some(records[id]));
      } else if disposed {
        ResolveEach({w}, None);
      } else {
        var pending := if id in waiters then waiters[id] else {};
        waiters, timers := waiters[id := pending + {w}], timers + {w};
      }
    }

    /** The timer of a waiter, which knows the download it was set for. */
    method OnTimer(w: nat, id: Id)
      requires w in timers && w in waits && waits[w] == id
      modifies this
      ensures Model() == Expire(old(Model()), w)
    {
      if id in waiters {
        var pending := waiters[id] - {w};
        waiters := if pending == {} then waiters - {id} else waiters[id := pending];
      }
      ResolveEach({w}, None);
    }

    method StartDownload(id: Id, ok: bool)
      requires id !in records
      modifies this
      ensures Model() == Begin(old(Model()), id, ok)
    {
      if disposed { return; }
      records, items, handlers := records[id := Record(Started, 0)], items + {id}, handlers[id := Listening];
      if !ok { ConcludeDownload(id, Record(Failed, 0)); }
    }

    method OnUpdated(id: Id, received: Option<nat>)
      modifies this`records
      ensures Model() == Update(old(Model()), id, received)
    {
      if disposed || id !in records || Terminal(records[id]) { return; }
      records := records[id := Record(Progress, if received.Some? then received.value else records[id].received)];
    }

    method OnDone(id: Id, state: Status, received: Option<nat>)
      requires id in records && id in handlers && handlers[id].Listening?
      modifies this`handlers
      ensures Model() == Done(old(Model()), id, state, received)
    {
      if disposed { handlers := handlers[id := Discarding]; return; }
      var current := records[id];
      if Terminal(current) { handlers := handlers[id := Finished]; return; }
      var bytes := if received.Some? then received.value else current.received;
      if state.Completed? {
        handlers := handlers[id := Committing(Record(Completed, bytes))];
      } else {
        handlers := handlers[id := Removing(Record(if state.Cancelled? then Cancelled else Failed, bytes))];
      }
    }

    method AfterMove(id: Id, ok: bool)
      requires id in records && id in handlers && handlers[id].Committing?
      modifies this
      ensures Model() == Moved(old(Model()), id, ok)
    {
      if ok { ConcludeDownload(id, handlers[id].done); } else { handlers := handlers[id := Failing]; }
    }

    method AfterRemoval(id: Id)
      requires id in records && id in handlers
      requires handlers[id].Removing? || handlers[id].Failing? || handlers[id].Discarding?
      modifies this
      ensures Model() == Removed(old(Model()), id)
    {
      match handlers[id]
      case Removing(done) => ConcludeDownload(id, done);
      case Failing =>
        if Terminal(records[id]) { handlers := handlers[id := Finished]; }
        else { ConcludeDownload(id, records[id].(status := Failed)); }
      case Discarding => items, handlers := items - {id}, handlers[id := Discarded];
    }

    method DisposeController()
      modifies this
      ensures Model() == Dispose(old(Model()))
    {
      if disposed { return; }
      disposed := true;
      var all := Registered(waiters);
      waiters := map[];
      ResolveEach(all, None);
    }
  }
}
