/** What requests, continuations and callbacks do to a target and its queue. */
module TargetQueueEffects {
  import opened Wrappers
  import opened TargetModel
  import opened TargetQueues

  /** Callbacks of clients reach the target at once, whatever is queued. */
  lemma ClientsAreHeard(d: Desk, c: ClientId, state: ClientState, flag: bool)
    ensures StepOf(d, Hears(ClientMoved(c, state))) == d.(target := Next(d.target, ClientMoved(c, state)))
    ensures StepOf(d, Hears(ClientSpoke(c, flag))) == d.(target := Next(d.target, ClientSpoke(c, flag)))
    ensures StepOf(d, Hears(ClientFailed(c))) == d.(target := Next(d.target, ClientFailed(c)))
    ensures StepOf(d, Hears(AttemptSettled(c, flag))) == d.(target := Next(d.target, AttemptSettled(c, flag)))
    ensures StepOf(d, Hears(CredentialSaved(c))) == d.(target := Next(d.target, CredentialSaved(c)))
  {
  }

  /** A request is put behind the tail of the entry, and becomes the tail. */
  lemma RequestIsQueued(d: Desk, kind: Kind)
    ensures var d' := StepOf(d, Requests(kind));
            && d'.target == d.target && d'.line.settled == d.line.settled && d'.line.tail == Some(|d.line.requests|)
            && d'.line.requests == d.line.requests + [Request(kind, d.line.tail, false)]
  {
  }

  /** The events by which an operation goes on. */
  predicate GoesOn(e: Event) {
    match e
    case LookupDone(_, _) => true
    case CloseDone(_, _) => true
    case ConnectDone(_) => true
    case PairDone(_) => true
    case OpFailed(_) => true
    case _ => false
  }

  /**
   An operation that goes on does what the target does with its event, and settles exactly when it has left the target;
   the removal that is done takes the entry with it, so that the next request begins a new chain.
   */
  lemma OperationGoesOn(d: Desk, e: Event)
    requires GoesOn(e) && e.op in d.target.ops
    ensures var d' := StepOf(d, Continues(e));
            && d'.target == Next(d.target, e) && d'.local == d.local && d'.line.requests == d.line.requests
            && d'.line.settled == (if e.op in d'.target.ops then d.line.settled else d.line.settled + {e.op})
            && d'.line.tail == (if d.target.ops[e.op] == Removing && e.CloseDone? then None else d.line.tail)
  {
  }

  /** An operation begins once what it waits for has settled, and not twice. */
  lemma OperationBegins(d: Desk, op: nat)
    requires op < |d.line.requests|
    ensures var r := d.line.requests[op];
            if r.begun || (r.after.Some? && r.after.value !in d.line.settled) then StepOf(d, Starts(op)) == d
            else
              var d' := StepOf(d, Starts(op));
              && d'.line.requests == d.line.requests[op := r.(begun := true)] && d'.line.tail == d.line.tail
              && d'.line.settled == (if op in d'.target.ops then d.line.settled else d.line.settled + {op})
              && d'.target == match r.kind
                              case Connect => Next(d.target, BeginConnect(op))
                              case Pair => Next(d.target, BeginPair(op, d.local))
                              case Disconnect => Next(d.target, BeginDisconnect(op))
                              case Remove => if d.local then d.target else Next(d.target, BeginRemove(op))
  {
  }
}
