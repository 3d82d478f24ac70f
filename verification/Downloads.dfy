/**
 The downloads of browser surfaces (apps/desktop/src/browser-downloads.ts). Ids of downloads and waiters are numbers
 that are never used twice; files, timers and the browser act through events that may come at any time.
 */
module Downloads {
  import opened Wrappers

  type Id = nat

  datatype Status = Started | Progress | Completed | Cancelled | Failed

  datatype Record = Record(status: Status, received: nat)

  predicate Terminal(r: Record) {
    r.status.Completed? || r.status.Cancelled? || r.status.Failed?
  }

  /** Where the handler of the one done event of a download stands. */
  datatype Handler =
    | Listening
    /** Waiting for the file to be moved into place. */
    | Committing(done: Record)
    /** Waiting for the file to be removed, to record the end of the download. */
    | Removing(done: Record)
    /** Waiting for the file to be removed, to record a failure. */
    | Failing
    /** Waiting for the file to be removed after disposal, and then done without a record. */
    | Discarding
    | Discarded
    | Finished

  /** The controller, with its history: what every waiter waits for and what it was told. */
  datatype State = State(
    records: map<Id, Record>,
    items: set<Id>,
    handlers: map<Id, Handler>,
    waiters: map<Id, set<nat>>,
    timers: set<nat>,
    disposed: bool,
    waits: map<nat, Id>,
    resolved: multiset<nat>,
    told: map<nat, Option<Record>>)

  const START := State(map[], {}, map[], map[], {}, false, map[], multiset{}, map[])

  // ---- waiters ----

  /** Some waiters are resolved and their timers stopped. */
  function Tell(s: State, who: set<nat>, what: Option<Record>): State {
    s.(timers := s.timers - who, resolved := s.resolved + multiset(who), told := s.told + map w | w in who :: what)
  }

  function ResolveWaiters(s: State, id: Id, r: Record): State {
    if id !in s.waiters then s else Tell(s.(waiters := s.waiters - {id}), s.waiters[id], Some(r))
  }

  function Registered(waiters: map<Id, set<nat>>): set<nat> {
    set id, w | id in waiters && w in waiters[id] :: w
  }

  /** A call of wait, by a waiter that is not yet known. */
  function Wait(s: State, w: nat, id: Id): State {
    if w in s.waits then s else
    var asked := s.(waits := s.waits[w := id]);
    if id in s.records && Terminal(s.records[id]) then Tell(asked, {w}, Some(s.records[id]))
    else if s.disposed then Tell(asked, {w}, None)
    else
      var pending := if id in s.waiters then s.waiters[id] else {};
      asked.(waiters := s.waiters[id := pending + {w}], timers := s.timers + {w})
  }

  function Expire(s: State, w: nat): State {
    if w !in s.timers || w !in s.waits then s else
    var id := s.waits[w];
    var kept :=
      if id !in s.waiters then s.waiters
      else if s.waiters[id] - {w} == {} then s.waiters - {id}
      else s.waiters[id := s.waiters[id] - {w}];
    Tell(s.(waiters := kept), {w}, None)
  }

  // ---- downloads ----

  /** A terminal record is stored, its item dropped and its waiters resolved. */
  function Conclude(s: State, id: Id, r: Record): State {
    ResolveWaiters(s.(records := s.records[id := r], items := s.items - {id}, handlers := s.handlers[id := Finished]), id, r)
  }

  /** A download begins; when the save path is refused it fails at once. */
  function Begin(s: State, id: Id, ok: bool): State {
    if s.disposed || id in s.records then s else
    var begun := s.(records := s.records[id := Record(Started, 0)], items := s.items + {id}, handlers := s.handlers[id := Listening]);
    if ok then begun else Conclude(begun, id, Record(Failed, 0))
  }

  function Update(s: State, id: Id, received: Option<nat>): State {
    if s.disposed || id !in s.records || Terminal(s.records[id]) then s
    else s.(records := s.records[id := Record(Progress, Received(s.records[id], received))])
  }

  function Received(current: Record, received: Option<nat>): nat {
    if received.Some? then received.value else current.received
  }

  /** The done event of a download, which comes once. */
  function Done(s: State, id: Id, state: Status, received: Option<nat>): State {
    if id !in s.records || id !in s.handlers || !s.handlers[id].Listening? then s
    else if s.disposed then s.(handlers := s.handlers[id := Discarding])
    else
      var current := s.records[id];
      if Terminal(current) then s.(handlers := s.handlers[id := Finished])
      else if state.Completed? then
        s.(handlers := s.handlers[id := Committing(Record(Completed, Received(current, received)))])
      else
        var end := if state.Cancelled? then Cancelled else Failed;
        s.(handlers := s.handlers[id := Removing(Record(end, Received(current, received)))])
  }

  /** The move of a completed file ends. */
  function Moved(s: State, id: Id, ok: bool): State {
    if id !in s.records || id !in s.handlers || !s.handlers[id].Committing? then s
    else if ok then Conclude(s, id, s.handlers[id].done)
    else s.(handlers := s.handlers[id := Failing])
  }

  /** The removal of a file ends. */
  function Removed(s: State, id: Id): State {
    if id !in s.records || id !in s.handlers then s else
    match s.handlers[id]
    case Removing(done) => Conclude(s, id, done)
    case Failing =>
      if Terminal(s.records[id]) then s.(handlers := s.handlers[id := Finished])
      else Conclude(s, id, s.records[id].(status := Failed))
    case Discarding => s.(items := s.items - {id}, handlers := s.handlers[id := Discarded])
    case _ => s
  }

  function Dispose(s: State): State {
    if s.disposed then s else Tell(s.(disposed := true, waiters := map[]), Registered(s.waiters), None)
  }

  // ---- runs ----

  datatype Event =
    | Begins(id: Id, ok: bool)
    | Updates(id: Id, received: Option<nat>)
    | Ends(id: Id, state: Status, received: Option<nat>)
    | Moves(id: Id, ok: bool)
    | Removes(id: Id)
    | Waits(w: nat, id: Id)
    | Expires(w: nat)
    | Disposes

  function Next(s: State, e: Event): State {
    match e
    case Begins(id, ok) => Begin(s, id, ok)
    case Updates(id, received) => Update(s, id, received)
    case Ends(id, state, received) => Done(s, id, state, received)
    case Moves(id, ok) => Moved(s, id, ok)
    case Removes(id) => Removed(s, id)
    case Waits(w, id) => Wait(s, w, id)
    case Expires(w) => Expire(s, w)
    case Disposes => Dispose(s)
  }

  function Run(s: State, events: seq<Event>): State
    decreases |events|
  {
    if events == [] then s else Run(Next(s, events[0]), events[1..])
  }
}
