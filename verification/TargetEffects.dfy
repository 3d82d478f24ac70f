/** What each operation and each callback of a target does, in every state that some interleaving reaches. */
module TargetEffects {
  import opened Wrappers
  import opened TargetModel
  import opened TargetTheorems

  /** The same connection: nothing about the installed client or its generation differs. */
  predicate SameConnection(t: Target, t': Target) {
    && t'.generation == t.generation && t'.runtime == t.runtime && t'.attempt == t.attempt && t'.welcome == t.welcome
    && t'.clients == t.clients
  }

  /** Only the stage of one operation differs, or that it has ended. */
  ghost predicate Moved(t: Target, t': Target, op: OpId, stage: Option<Stage>) {
    t'.ops == if stage.Some? then t.ops[op := stage.value] else t.ops - {op}
  }

  /** What a connect leaves of its operation: nothing, or a pairing that goes on. */
  function After(goal: Goal, waits: bool): Option<Stage> {
    if goal == ToConnect then None else Some(PairConnecting(waits))
  }

  // ---- beginning ----

  lemma OperationsBegin(t: Target, op: OpId)
    requires op !in t.ops
    ensures Next(t, BeginConnect(op)) == t.(ops := t.ops[op := Lookup(ToConnect)])
    ensures Next(t, BeginPair(op, false)) == t.(ops := t.ops[op := PairLookup])
  {
  }

  /** What closing the runtime leaves: no client is installed, and the one that was is told to close. */
  ghost predicate Emptied(t: Target, t': Target) {
    && t'.generation > t.generation && t'.runtime.None? && t'.attempt.None? && t'.welcome.None?
    && |t'.clients| == |t.clients| && t'.states == t.states && t'.notices == t.notices
    && forall c :: 0 <= c < |t.clients| ==>
         t'.clients[c] == if t.runtime == Some(c) then t.clients[c].(closed := true) else t.clients[c]
  }

  /** A disconnect or a removal closes the installed client at once. */
  lemma DisconnectAndRemoveClose(t: Target, op: OpId)
    requires Reachable(t) && op !in t.ops
    ensures var t' := Next(t, BeginDisconnect(op));
            Emptied(t, t') && Moved(t, t', op, Some(Disconnecting(t.runtime.Some?)))
    ensures var t' := Next(t, BeginRemove(op)); Emptied(t, t') && Moved(t, t', op, Some(Removing))
  {
    ReachableInv(t);
  }

  // ---- connecting ----

  /** The installed client is ready and has the capabilities asked for. */
  predicate Usable(t: Target, c: ClientId, capabilities: Capabilities) {
    t.runtime == Some(c) && c < |t.clients| && t.clients[c].state == Ready && t.clients[c].capabilities == capabilities
  }

  /**
   A connect that finds a ready client with its capabilities sends that client's welcome again, once, leaves the
   connection alone and ends; a pairing goes on at once.
   */
  lemma ReadyClientIsReused(t: Target, op: OpId, goal: Goal, c: ClientId, capabilities: Capabilities)
    requires Reachable(t) && op in t.ops && t.ops[op] == Lookup(goal) && Usable(t, c, capabilities)
    ensures var t' := Next(t, LookupDone(op, capabilities));
            && t'.notices == t.notices + [Replayed(c, c)] && t'.states == t.states
            && SameConnection(t, t') && Moved(t, t', op, After(goal, false))
  {
    ReachableInv(t);
    ReplayedWelcomeIsOwn(t);
  }

  predicate UnderWay(t: Target, c: ClientId, capabilities: Capabilities) {
    && t.runtime == Some(c) && c < |t.clients| && t.clients[c].capabilities == capabilities
    && t.clients[c].state in {Connecting, Handshaking, NeedsPairing, ReconnectWait}
  }

  /** A connect that finds a client on its way leaves it alone and tells nobody; a pairing waits if its attempt is stored. */
  lemma ClientUnderWayIsJoined(t: Target, op: OpId, goal: Goal, c: ClientId, capabilities: Capabilities)
    requires Reachable(t) && op in t.ops && t.ops[op] == Lookup(goal) && UnderWay(t, c, capabilities)
    ensures var t' := Next(t, LookupDone(op, capabilities));
            && t'.notices == t.notices && t'.states == t.states
            && SameConnection(t, t') && Moved(t, t', op, After(goal, t.attempt.Some?))
  {
    ReachableInv(t);
  }

  /** Otherwise what is installed is closed, and the connect waits for that if there was a client. */
  lemma OtherClientIsClosed(t: Target, op: OpId, goal: Goal, capabilities: Capabilities)
    requires Reachable(t) && op in t.ops && t.ops[op] == Lookup(goal)
    requires forall c: ClientId :: !Usable(t, c, capabilities) && !UnderWay(t, c, capabilities)
    ensures var t' := Next(t, LookupDone(op, capabilities));
            Emptied(t, t') && Moved(t, t', op, Some(Closing(goal, capabilities, t.runtime.Some?)))
  {
    ReachableInv(t);
    if t.runtime.Some? {
      assert !Usable(t, t.runtime.value, capabilities) && !UnderWay(t, t.runtime.value, capabilities);
    }
  }

  /** The states with one more, unless that is a repeated connecting. */
  predicate Published(states: seq<DesktopState>, states': seq<DesktopState>, state: DesktopState) {
    states' == if state == ConnectingState && states != [] && states[|states| - 1] == ConnectingState then states else states + [state]
  }

  /** When the close is over a new client is installed, with the capabilities asked for and an attempt of its own. */
  lemma ClosedThenInstalled(t: Target, op: OpId, goal: Goal, capabilities: Capabilities, waits: bool, paired: bool)
    requires Reachable(t) && op in t.ops && t.ops[op] == Closing(goal, capabilities, waits)
    ensures var t' := Next(t, CloseDone(op, paired));
            && t'.generation > t.generation && t'.runtime == Some(|t.clients|) && t'.attempt == Some(t'.generation)
            && t'.clients == t.clients + [Client(t'.generation, Other, capabilities, paired, false, false)]
            && Published(t.states, t'.states, ConnectingState) && t'.notices == t.notices
            && Moved(t, t', op, After(goal, true))
  {
  }

  // ---- disconnecting and removing ----

  lemma DisconnectIsPublished(t: Target, op: OpId, waits: bool, paired: bool)
    requires op in t.ops && t.ops[op] == Disconnecting(waits)
    ensures Next(t, CloseDone(op, paired)) == t.(states := t.states + [Disconnected], ops := t.ops - {op})
  {
  }

  /** After a removal the next connecting is sent again, whatever was sent before. */
  lemma RemovalForgetsTheState(t: Target, op: OpId, paired: bool)
    requires op in t.ops && t.ops[op] == Removing
    ensures Next(t, CloseDone(op, paired)) == t.(states := [], ops := t.ops - {op})
  {
  }

  lemma FailureEndsTheOperation(t: Target, op: OpId)
    requires op in t.ops
    ensures Next(t, OpFailed(op)) == t.(ops := t.ops - {op})
  {
  }

  // ---- pairing ----

  /** The installed client asks for pairing. */
  predicate Asks(t: Target, c: ClientId) {
    t.runtime == Some(c) && c < |t.clients| && t.clients[c].state == NeedsPairing
  }

  /** The events at which a pairing looks at the installed client. */
  predicate Looks(t: Target, op: OpId, e: Event) {
    || (e == BeginPair(op, true) && op !in t.ops)
    || (op in t.ops && t.ops[op].PairConnecting? && e == ConnectDone(op))
    || (op in t.ops && t.ops[op].PairLookup? && e.LookupDone? && e.op == op
        && (t.runtime.Some? && t.runtime.value < |t.clients| ==> t.clients[t.runtime.value].capabilities == e.capabilities))
  }

  /** A pairing begins with the client that asks for it, whose earlier credential no longer counts; otherwise it ends. */
  lemma PairingBeginsOnRequest(t: Target, op: OpId, e: Event)
    requires Reachable(t) && Looks(t, op, e)
    ensures var t' := Next(t, e);
            && (forall c: ClientId :: Asks(t, c) ==>
                  && Moved(t, t', op, Some(Pairing(c)))
                  && t'.clients == t.clients[c := t.clients[c].(paired := false, saved := false)])
            && ((forall c: ClientId :: !Asks(t, c)) ==> Moved(t, t', op, None) && t'.clients == t.clients)
            && t' == t.(ops := t'.ops, clients := t'.clients)
  {
    ReachableInv(t);
    if t.runtime.Some? { assert Asks(t, t.runtime.value) <==> t.clients[t.runtime.value].state == NeedsPairing; }
  }

  /** A pairing that finds a client with other capabilities closes it, and connects anew when that is over. */
  lemma PairingReplacesOtherCapabilities(t: Target, op: OpId, c: ClientId, capabilities: Capabilities, paired: bool)
    requires Reachable(t) && op in t.ops
    ensures t.ops[op] == PairLookup && t.runtime == Some(c) && c < |t.clients| && t.clients[c].capabilities != capabilities ==>
              var t' := Next(t, LookupDone(op, capabilities));
              Emptied(t, t') && Moved(t, t', op, Some(PairClosing))
    ensures t.ops[op] == PairClosing ==> Next(t, CloseDone(op, paired)) == t.(ops := t.ops[op := Lookup(ToPair)])
  {
    ReachableInv(t);
  }

  /** A pairing is reported exactly when the credential of its client was stored. */
  lemma PairingIsReported(t: Target, op: OpId, c: ClientId)
    requires Reachable(t) && op in t.ops && t.ops[op] == Pairing(c)
    ensures c < |t.clients|
    ensures Next(t, PairDone(op)) ==
            t.(ops := t.ops - {op}, notices := t.notices + (if t.clients[c].paired then [PairedNotice(c)] else []))
  {
    ReachableInv(t);
    assert t.notices + [] == t.notices;
  }

  /** A stored credential marks the installed client, if it is that client's, as paired. */
  lemma CredentialMarksTheClient(t: Target, c: ClientId)
    requires Reachable(t) && c < |t.clients|
    ensures Next(t, CredentialSaved(c)) ==
            t.(clients := t.clients[c := t.clients[c].(saved := true, paired := t.clients[c].paired || t.runtime == Some(c))])
  {
    ReachableInv(t);
    CurrentIsInstalled(t, c);
  }

  // ---- what clients say ----

  /** The state of the installed client is told and published; that of another client is only its own. */
  lemma StatesAreForwarded(t: Target, c: ClientId, state: ClientState)
    requires Reachable(t) && c < |t.clients| && state != Ready
    ensures var t' := Next(t, ClientMoved(c, state));
            && t'.clients == t.clients[c := t.clients[c].(state := state)]
            && (t.runtime == Some(c) ==>
                  t'.notices == t.notices + [ClientNotice(c)] && Published(t.states, t'.states, PublicState(state)))
            && (t.runtime != Some(c) ==> t'.notices == t.notices && t'.states == t.states)
            && t' == t.(clients := t'.clients, notices := t'.notices, states := t'.states)
  {
    ReachableInv(t);
    CurrentIsInstalled(t, c);
  }

  /** What the application shows for a client: ready is connected, fatal an error, idle and closed disconnected. */
  function PublicState(state: ClientState): DesktopState {
    if state == Ready then Connected
    else if state == NeedsPairing then PairingRequired
    else if state == Fatal then ErrorState
    else if state == Other then Disconnected
    else ConnectingState
  }

  /** The installed client that gets ready is shown as connected and its welcome is kept and told. */
  lemma ReadyIsConnected(t: Target, c: ClientId)
    requires Reachable(t) && c < |t.clients|
    ensures var t' := Next(t, ClientMoved(c, Ready));
            && t'.clients == t.clients[c := t.clients[c].(state := Ready)]
            && (t.runtime == Some(c) ==>
                  && t'.notices == t.notices + [ClientNotice(c), ClientNotice(c)]
                  && t'.states == t.states + [Connected] && t'.welcome == Some(c))
            && (t.runtime != Some(c) ==> t'.notices == t.notices && t'.states == t.states && t'.welcome == t.welcome)
            && t' == t.(clients := t'.clients, notices := t'.notices, states := t'.states, welcome := t'.welcome)
  {
    ReachableInv(t);
    CurrentIsInstalled(t, c);
    assert t.notices + [ClientNotice(c)] + [ClientNotice(c)] == t.notices + [ClientNotice(c), ClientNotice(c)];
  }

  /** An event or an error of the installed client is told, and a welcome kept; another client is not heard. */
  lemma EventsAreForwarded(t: Target, c: ClientId, welcome: bool)
    requires Reachable(t) && c < |t.clients|
    ensures Next(t, ClientSpoke(c, welcome)) ==
            if t.runtime != Some(c) then t
            else t.(notices := t.notices + [ClientNotice(c)], welcome := if welcome then Some(c) else t.welcome)
    ensures Next(t, ClientFailed(c)) == if t.runtime != Some(c) then t else t.(notices := t.notices + [ClientNotice(c)])
  {
    ReachableInv(t);
    CurrentIsInstalled(t, c);
  }

  /** A settled attempt of the installed client is no longer stored, and its rejection is told. */
  lemma AttemptIsForgotten(t: Target, c: ClientId, rejected: bool)
    requires Reachable(t) && c < |t.clients|
    ensures Next(t, AttemptSettled(c, rejected)) ==
            if t.runtime != Some(c) then t
            else t.(attempt := None, notices := if rejected then t.notices + [ClientNotice(c)] else t.notices)
  {
    ReachableInv(t);
    CurrentIsInstalled(t, c);
  }
}
