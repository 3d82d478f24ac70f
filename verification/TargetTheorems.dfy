/** The generation fence of the target manager, for every interleaving at the awaits. */
module TargetTheorems {
  import opened Wrappers
  import opened TargetModel

  /**
   Exactly the installed client has the target's generation and it is not closed, every earlier client has an earlier
   generation of its own, and a stored connect attempt belongs to the installed client.
   */
  ghost predicate Fenced(t: Target) {
    && (t.runtime.Some? ==> t.runtime.value < |t.clients| && t.clients[t.runtime.value].generation == t.generation)
    && (t.runtime.Some? ==> !t.clients[t.runtime.value].closed)
    && (t.runtime.None? ==> forall c :: 0 <= c < |t.clients| ==> t.clients[c].generation < t.generation)
    && (forall c, d :: 0 <= c < d < |t.clients| ==> t.clients[c].generation < t.clients[d].generation)
    && (forall c :: 0 <= c < |t.clients| ==> t.clients[c].generation <= t.generation)
    && (t.attempt.Some? ==> t.runtime.Some? && t.attempt.value == t.generation)
    && (t.welcome.Some? ==> t.welcome.value < |t.clients|)
  }

  /** A client can only be marked paired by its own stored credential once a pairing has begun on it. */
  ghost predicate PairingSound(t: Target) {
    forall op :: op in t.ops && t.ops[op].Pairing? ==>
      && t.ops[op].client < |t.clients|
      && (t.clients[t.ops[op].client].paired ==> t.clients[t.ops[op].client].saved)
  }

  ghost predicate NoRepeatedConnecting(states: seq<DesktopState>) {
    forall i :: 0 < i < |states| ==> !(states[i - 1] == ConnectingState && states[i] == ConnectingState)
  }

  ghost predicate Inv(t: Target) {
    Fenced(t) && PairingSound(t) && NoRepeatedConnecting(t.states)
  }

  lemma CurrentIsInstalled(t: Target, c: ClientId)
    requires Fenced(t) && c < |t.clients|
    ensures Current(t, c) <==> t.runtime == Some(c)
  {
  }

  lemma PublishKeeps(states: seq<DesktopState>, state: DesktopState)
    requires NoRepeatedConnecting(states)
    ensures NoRepeatedConnecting(Publish(states, state))
  {
  }

  lemma CloseKeeps(t: Target)
    requires Inv(t)
    ensures Inv(CloseRuntime(t)) && CloseRuntime(t).runtime.None?
  {
  }

  lemma InstallKeeps(t: Target, capabilities: Capabilities, paired: bool)
    requires Inv(t)
    ensures Inv(Install(t, capabilities, paired))
  {
    PublishKeeps(t.states, ConnectingState);
  }

  lemma SuspendKeeps(t: Target, op: OpId, stage: Stage)
    requires Inv(t) && !stage.Pairing?
    ensures Inv(Suspend(t, op, stage)) && Inv(Finish(t, op))
  {
  }

  lemma TryPairKeeps(t: Target, op: OpId)
    requires Inv(t)
    ensures Inv(TryPair(t, op))
  {
  }

  lemma LookedUpKeeps(t: Target, op: OpId, goal: Goal, capabilities: Capabilities)
    requires Inv(t)
    ensures Inv(LookedUp(t, op, goal, capabilities))
  {
    var next := LookedUp(t, op, goal, capabilities);
    if next == Suspend(CloseRuntime(t), op, Closing(goal, capabilities, t.runtime.Some?)) {
      CloseKeeps(t);
      SuspendKeeps(CloseRuntime(t), op, Closing(goal, capabilities, t.runtime.Some?));
    } else if next == Connectable(t, op, goal, true) {
      ConnectableKeeps(t, op, goal, true);
    } else if next == Connectable(t, op, goal, false) {
      ConnectableKeeps(t, op, goal, false);
    } else {
      var u := t.(notices := t.notices + [Replayed(t.welcome.value, t.runtime.value)]);
      NoticeKeeps(t, Replayed(t.welcome.value, t.runtime.value));
      ConnectableKeeps(u, op, goal, false);
    }
  }

  lemma NoticeKeeps(t: Target, notice: Notice)
    requires Inv(t)
    ensures Inv(t.(notices := t.notices + [notice]))
  {
  }

  lemma ConnectableKeeps(t: Target, op: OpId, goal: Goal, waits: bool)
    requires Inv(t)
    ensures Inv(Connectable(t, op, goal, waits))
  {
    SuspendKeeps(t, op, PairConnecting(waits));
  }

  lemma BeginKeeps(t: Target, e: Event)
    requires Inv(t) && (e.BeginConnect? || e.BeginDisconnect? || e.BeginRemove? || e.BeginPair?)
    ensures Inv(Begin(t, e)) && t.generation <= Begin(t, e).generation
  {
    CloseKeeps(t);
    if e.BeginPair? { TryPairKeeps(t, e.op); }
  }

  lemma AfterCloseKeeps(t: Target, op: OpId, paired: bool)
    requires Inv(t) && op in t.ops
    ensures Inv(AfterClose(t, op, paired)) && t.generation <= AfterClose(t, op, paired).generation
  {
    match t.ops[op]
    case Closing(goal, capabilities, _) =>
      InstallKeeps(t, capabilities, paired);
      SuspendKeeps(Install(t, capabilities, paired), op, PairConnecting(true));
    case Disconnecting(_) => PublishKeeps(t.states, Disconnected);
    case _ =>
  }

  lemma AfterLookupKeeps(t: Target, op: OpId, capabilities: Capabilities)
    requires Inv(t) && op in t.ops
    ensures Inv(AfterLookup(t, op, capabilities)) && t.generation <= AfterLookup(t, op, capabilities).generation
  {
    match t.ops[op]
    case Lookup(goal) => LookedUpKeeps(t, op, goal, capabilities);
    case PairLookup => CloseKeeps(t); TryPairKeeps(t, op);
    case _ =>
  }

  lemma ContinueKeeps(t: Target, e: Event)
    requires Inv(t) && (e.LookupDone? || e.CloseDone? || e.ConnectDone? || e.PairDone? || e.OpFailed?)
    ensures Inv(Continue(t, e)) && t.generation <= Continue(t, e).generation
  {
    if e.op in t.ops {
      match e
      case LookupDone(op, capabilities) => AfterLookupKeeps(t, op, capabilities);
      case CloseDone(op, paired) => AfterCloseKeeps(t, op, paired);
      case ConnectDone(op) => TryPairKeeps(t, op);
      case PairDone(op) => SuspendKeeps(t, op, PairLookup);
      case OpFailed(op) => SuspendKeeps(t, op, PairLookup);
    }
  }

  lemma MovedKeeps(t: Target, c: ClientId, state: ClientState)
    requires Inv(t) && c < |t.clients|
    ensures Inv(Moved(t, c, state))
  {
    PublishKeeps(t.states, StateFor(state));
  }

  lemma SpokeKeeps(t: Target, c: ClientId)
    requires Inv(t) && c < |t.clients|
    ensures Inv(Spoke(t, c, true)) && Inv(Spoke(t, c, false))
  {
  }

  lemma SavedKeeps(t: Target, c: ClientId)
    requires Inv(t) && c < |t.clients|
    ensures Inv(Saved(t, c))
  {
  }

  lemma HeardKeeps(t: Target, e: Event)
    requires Inv(t)
    requires e.ClientMoved? || e.ClientSpoke? || e.ClientFailed? || e.AttemptSettled? || e.CredentialSaved?
    ensures Inv(Heard(t, e)) && t.generation <= Heard(t, e).generation
  {
    if e.client < |t.clients| {
      match e
      case ClientMoved(c, state) => MovedKeeps(t, c, state); SpokeKeeps(Moved(t, c, state), c);
      case ClientSpoke(c, _) => SpokeKeeps(t, c);
      case CredentialSaved(c) => SavedKeeps(t, c);
      case _ =>
    }
  }

  lemma NextKeepsInv(t: Target, e: Event)
    requires Inv(t)
    ensures Inv(Next(t, e)) && t.generation <= Next(t, e).generation
  {
    if e.BeginConnect? || e.BeginDisconnect? || e.BeginRemove? || e.BeginPair? { BeginKeeps(t, e); }
    else if e.LookupDone? || e.CloseDone? || e.ConnectDone? || e.PairDone? || e.OpFailed? { ContinueKeeps(t, e); }
    else { HeardKeeps(t, e); }
  }

  lemma {:induction false} RunKeepsInv(t: Target, events: seq<Event>)
    requires Inv(t)
    ensures Inv(Run(t, events)) && t.generation <= Run(t, events).generation
    decreases |events|
  {
    if events != [] {
      NextKeepsInv(t, events[0]);
      RunKeepsInv(Next(t, events[0]), events[1..]);
    }
  }

  ghost predicate Reachable(t: Target) {
    exists events :: Run(UNKNOWN, events) == t
  }

  lemma ReachableInv(t: Target)
    requires Reachable(t)
    ensures Inv(t)
  {
    var events :| Run(UNKNOWN, events) == t;
    RunKeepsInv(UNKNOWN, events);
  }

  /** An installed runtime and a stored connect attempt always carry the current generation. */
  lemma RuntimeAndAttemptAreCurrent(t: Target)
    requires Reachable(t)
    ensures t.runtime.Some? ==> t.runtime.value < |t.clients| && t.clients[t.runtime.value].generation == t.generation
    ensures t.attempt.Some? ==> t.runtime.Some? && t.attempt.value == t.generation
    ensures forall c :: 0 <= c < |t.clients| && t.clients[c].generation == t.generation ==> t.runtime == Some(c)
  {
    ReachableInv(t);
  }

  /** A target's generation never decreases, whatever runs in between. */
  lemma GenerationNeverDecreases(t: Target, events: seq<Event>)
    requires Reachable(t)
    ensures t.generation <= Run(t, events).generation
  {
    ReachableInv(t);
    RunKeepsInv(t, events);
  }

  /** A notice that may be sent in a state: on behalf of the installed client and of no other. */
  predicate Rightful(t: Target, n: Notice) {
    match n
    case ClientNotice(c) => t.runtime == Some(c)
    case Replayed(_, ready) => t.runtime == Some(ready) && ready < |t.clients| && t.clients[ready].state == Ready
    case PairedNotice(c) => c < |t.clients| && t.clients[c].saved
  }

  /** Some notices are sent, all of them rightful. */
  predicate Tells(t: Target, t': Target, most: nat) {
    && |t.notices| <= |t'.notices| <= |t.notices| + most && t'.notices[..|t.notices|] == t.notices
    && forall i :: |t.notices| <= i < |t'.notices| ==> Rightful(t, t'.notices[i])
  }

  predicate GetsReady(e: Event) {
    e.ClientMoved? && e.state == Ready
  }

  lemma HeardTells(t: Target, e: Event)
    requires Inv(t)
    requires e.ClientMoved? || e.ClientSpoke? || e.ClientFailed? || e.AttemptSettled? || e.CredentialSaved?
    ensures Tells(t, Heard(t, e), if GetsReady(e) then 2 else 1)
  {
    if e.client < |t.clients| { CurrentIsInstalled(t, e.client); }
  }

  lemma ContinueTells(t: Target, e: Event)
    requires Inv(t) && (e.LookupDone? || e.CloseDone? || e.ConnectDone? || e.PairDone? || e.OpFailed?)
    ensures Tells(t, Continue(t, e), 1)
  {
  }

  /**
   Whatever is forwarded comes from the one current client: every step, in every interleaving, sends at
   most one notice, or the state and the welcome of a client that gets ready, and an event, state or error only on
   behalf of the installed client.
   */
  lemma ForwardedComesFromTheCurrentClient(t: Target, e: Event)
    requires Reachable(t)
    ensures Tells(t, Next(t, e), if GetsReady(e) then 2 else 1)
  {
    ReachableInv(t);
    if e.LookupDone? || e.CloseDone? || e.ConnectDone? || e.PairDone? || e.OpFailed? { ContinueTells(t, e); }
    else if !(e.BeginConnect? || e.BeginDisconnect? || e.BeginRemove? || e.BeginPair?) { HeardTells(t, e); }
  }

  /** publishState never sends "connecting" twice in a row. */
  lemma ConnectingIsSentOnce(t: Target, i: nat)
    requires Reachable(t) && 0 < i < |t.states|
    ensures t.states[i - 1] != ConnectingState || t.states[i] != ConnectingState
  {
    ReachableInv(t);
  }

  // ---- replayed welcomes ----

  /** Every replayed welcome was the ready client's own, and the kept welcome of a ready installed client is its own. */
  ghost predicate Own(t: Target) {
    && OwnReplays(t)
    && (t.runtime.Some? && t.runtime.value < |t.clients| && t.clients[t.runtime.value].state == Ready ==>
          t.welcome == t.runtime)
  }

  lemma HeardKeepsOwn(t: Target, e: Event)
    requires Inv(t) && Own(t)
    requires e.ClientMoved? || e.ClientSpoke? || e.ClientFailed? || e.AttemptSettled? || e.CredentialSaved?
    ensures Own(Heard(t, e))
  {
    if e.client < |t.clients| { CurrentIsInstalled(t, e.client); }
  }

  lemma ContinueKeepsOwn(t: Target, e: Event)
    requires Own(t) && (e.LookupDone? || e.CloseDone? || e.ConnectDone? || e.PairDone? || e.OpFailed?)
    ensures Own(Continue(t, e))
  {
  }

  lemma NextKeepsOwn(t: Target, e: Event)
    requires Inv(t) && Own(t)
    ensures Own(Next(t, e))
  {
    if e.LookupDone? || e.CloseDone? || e.ConnectDone? || e.PairDone? || e.OpFailed? { ContinueKeepsOwn(t, e); }
    else if !(e.BeginConnect? || e.BeginDisconnect? || e.BeginRemove? || e.BeginPair?) { HeardKeepsOwn(t, e); }
  }

  lemma {:induction false} RunKeepsOwn(t: Target, events: seq<Event>)
    requires Inv(t) && Own(t)
    ensures Own(Run(t, events))
    decreases |events|
  {
    if events != [] {
      NextKeepsInv(t, events[0]);
      NextKeepsOwn(t, events[0]);
      RunKeepsOwn(Next(t, events[0]), events[1..]);
    }
  }

  /**
   In every interleaving of any operations, a replayed welcome was sent by the ready client itself, and a ready client
   that is reused has a welcome to replay.
   */
  lemma ReplayedWelcomeIsOwn(t: Target)
    requires Reachable(t)
    ensures Own(t)
  {
    var events :| Run(UNKNOWN, events) == t;
    RunKeepsOwn(UNKNOWN, events);
  }

  // ---- abandoned clients ----

  /** A client that is not installed is never installed again, and never told to close. */
  lemma StaysAbandoned(t: Target, e: Event, c: ClientId)
    requires Abandoned(t, c)
    ensures Abandoned(Next(t, e), c)
  {
  }
}
