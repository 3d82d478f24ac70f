/**
 One connection target of the target manager (apps/desktop/src/target-manager.ts) as a machine whose
 steps are the code between two awaits. The maps of the manager are keyed by target and no step reads
 another target's entries, so one target is a whole machine. Clients, the profile list, the remote
 registry and the credential store belong to the environment.
 */
module TargetModel {
  import opened Wrappers

  type ClientId = nat
  type OpId = nat
  type Capabilities = nat  // capability lists are only compared

  datatype ClientState = Ready | Connecting | Handshaking | NeedsPairing | ReconnectWait | Fatal | Other

  datatype DesktopState = Disconnected | ConnectingState | Connected | PairingRequired | ErrorState

  datatype Client = Client(generation: nat, state: ClientState, capabilities: Capabilities, paired: bool,
                           saved: bool,   // its credential was stored since its last pairing began
                           closed: bool)  // the manager has closed it

  datatype Goal = ToConnect | ToPair

  /**
   The await at which an operation is suspended. One that does not wait goes on before anything else happens: a close
   without a client to close, and a connect attempt that is already decided.
   */
  datatype Stage =
    | PairLookup                       // pairStart reads the remote record
    | PairClosing                      // pairStart closes a runtime with other capabilities
    | Lookup(goal: Goal)               // connectNow reads the profile or the remote record
    | Closing(goal: Goal, capabilities: Capabilities, waits: bool)  // connectNow closes the previous runtime
    | PairConnecting(waits: bool)      // pairStart awaits the connect attempt
    | Pairing(client: ClientId)        // pairStart awaits the pairing exchange
    | Disconnecting(waits: bool)
    | Removing

  /** What the manager tells its listeners on behalf of a client. */
  datatype Notice =
    | ClientNotice(from: ClientId)
    | Replayed(welcomeFrom: ClientId, ready: ClientId)
    | PairedNotice(client: ClientId)

  datatype Target = Target(
    generation: nat,               // 0 stands for a missing entry
    runtime: Option<ClientId>,
    attempt: Option<nat>,          // generation of the stored connect attempt
    welcome: Option<ClientId>,     // which client sent the kept welcome
    clients: seq<Client>,          // every client ever created for the target
    ops: map<OpId, Stage>,
    states: seq<DesktopState>,     // what publishState sent, since the target was last forgotten
    notices: seq<Notice>
  )

  const UNKNOWN := Target(0, None, None, None, [], map[], [], [])

  function StateFor(state: ClientState): DesktopState {
    match state
    case Ready => Connected
    case NeedsPairing => PairingRequired
    case Connecting => ConnectingState
    case Handshaking => ConnectingState
    case ReconnectWait => ConnectingState
    case Fatal => ErrorState
    case Other => Disconnected
  }

  /** A repeated "connecting" is not sent again. */
  function Publish(states: seq<DesktopState>, state: DesktopState): seq<DesktopState> {
    if state == ConnectingState && states != [] && states[|states| - 1] == state then states else states + [state]
  }

  function Closed(clients: seq<Client>, runtime: Option<ClientId>): seq<Client> {
    if runtime.Some? && runtime.value < |clients|
    then clients[runtime.value := clients[runtime.value].(closed := true)] else clients
  }

  /** closeRuntime up to its await: the installed client is taken out and told to close. */
  function CloseRuntime(t: Target): Target {
    t.(generation := t.generation + 1, attempt := None, runtime := None, welcome := None,
       clients := Closed(t.clients, t.runtime))
  }

  /** connectNow after its last await: a new client becomes the runtime of a new generation. */
  function Install(t: Target, capabilities: Capabilities, paired: bool): Target {
    var g := t.generation + 1;
    t.(generation := g,
       clients := t.clients + [Client(g, Other, capabilities, paired, false, false)],
       runtime := Some(|t.clients|),
       attempt := Some(g),
       states := Publish(t.states, ConnectingState))
  }

  function Suspend(t: Target, op: OpId, stage: Stage): Target {
    t.(ops := t.ops[op := stage])
  }

  function Finish(t: Target, op: OpId): Target {
    t.(ops := t.ops - {op})
  }

  /** pairStart once it is connected: pair with the installed client if that client asks for it. */
  function TryPair(t: Target, op: OpId): Target {
    if t.runtime.Some? && t.runtime.value < |t.clients| && t.clients[t.runtime.value].state == NeedsPairing then
      var c := t.runtime.value;
      Suspend(t, op, Pairing(c)).(clients := t.clients[c := t.clients[c].(paired := false, saved := false)])
    else Finish(t, op)
  }

  function Connectable(t: Target, op: OpId, goal: Goal, waits: bool): Target {
    if goal == ToPair then Suspend(t, op, PairConnecting(waits)) else Finish(t, op)
  }

  /** connectNow after its lookup: reuse the installed client, or close it and go on. */
  function LookedUp(t: Target, op: OpId, goal: Goal, capabilities: Capabilities): Target {
    if t.runtime.Some? && t.runtime.value < |t.clients| && t.clients[t.runtime.value].capabilities == capabilities
       && t.clients[t.runtime.value].state == Ready then
      Connectable(if t.welcome.None? then t
                  else t.(notices := t.notices + [Replayed(t.welcome.value, t.runtime.value)]), op, goal, false)
    else if t.runtime.Some? && t.runtime.value < |t.clients|
            && t.clients[t.runtime.value].capabilities == capabilities
            && StateFor(t.clients[t.runtime.value].state) in {ConnectingState, PairingRequired} then
      Connectable(t, op, goal, t.attempt == Some(t.clients[t.runtime.value].generation))
    else Suspend(CloseRuntime(t), op, Closing(goal, capabilities, t.runtime.Some?))
  }

  datatype Event =
    | BeginConnect(op: OpId)
    | BeginDisconnect(op: OpId)
    | BeginRemove(op: OpId)
    | BeginPair(op: OpId, local: bool)
    | LookupDone(op: OpId, capabilities: Capabilities)
    | CloseDone(op: OpId, paired: bool)
    | ConnectDone(op: OpId)
    | PairDone(op: OpId)
    | OpFailed(op: OpId)
    | ClientMoved(client: ClientId, state: ClientState)
    | ClientSpoke(client: ClientId, welcome: bool)
    | ClientFailed(client: ClientId)
    | AttemptSettled(client: ClientId, rejected: bool)
    | CredentialSaved(client: ClientId)

  predicate Current(t: Target, c: ClientId) {
    c < |t.clients| && t.clients[c].generation == t.generation
  }

  function Begin(t: Target, e: Event): Target
    requires e.BeginConnect? || e.BeginDisconnect? || e.BeginRemove? || e.BeginPair?
  {
    if e.op in t.ops then t
    else match e
      case BeginConnect(op) => Suspend(t, op, Lookup(ToConnect))
      case BeginDisconnect(op) => Suspend(CloseRuntime(t), op, Disconnecting(t.runtime.Some?))
      case BeginRemove(op) => Suspend(CloseRuntime(t), op, Removing)
      case BeginPair(op, local) => if local then TryPair(t, op) else Suspend(t, op, PairLookup)
  }

  function AfterLookup(t: Target, op: OpId, capabilities: Capabilities): Target
    requires op in t.ops
  {
    match t.ops[op]
    case Lookup(goal) => LookedUp(t, op, goal, capabilities)
    case PairLookup =>
      if t.runtime.Some? && t.runtime.value < |t.clients| && t.clients[t.runtime.value].capabilities != capabilities
      then Suspend(CloseRuntime(t), op, PairClosing) else TryPair(t, op)
    case _ => t
  }

  function AfterClose(t: Target, op: OpId, paired: bool): Target
    requires op in t.ops
  {
    match t.ops[op]
    case PairClosing => Suspend(t, op, Lookup(ToPair))
    case Closing(goal, capabilities, _) => Connectable(Install(t, capabilities, paired), op, goal, true)
    case Disconnecting(_) => Finish(t.(states := Publish(t.states, Disconnected)), op)
    case Removing => Finish(t.(states := []), op)
    case _ => t
  }

  function AfterPair(t: Target, op: OpId, c: ClientId): Target {
    if c < |t.clients| && t.clients[c].paired then Finish(t.(notices := t.notices + [PairedNotice(c)]), op)
    else Finish(t, op)
  }

  function Continue(t: Target, e: Event): Target
    requires e.LookupDone? || e.CloseDone? || e.ConnectDone? || e.PairDone? || e.OpFailed?
  {
    if e.op !in t.ops then t
    else match e
      case LookupDone(op, capabilities) => AfterLookup(t, op, capabilities)
      case CloseDone(op, paired) => AfterClose(t, op, paired)
      case ConnectDone(op) => if t.ops[op].PairConnecting? then TryPair(t, op) else t
      case PairDone(op) => if t.ops[op].Pairing? then AfterPair(t, op, t.ops[op].client) else t
      case OpFailed(op) => Finish(t, op)
  }

  // ---- a client's callbacks: dropped unless the client still has the target's generation ----

  function Tell(t: Target, c: ClientId): Target {
    if Current(t, c) then t.(notices := t.notices + [ClientNotice(c)]) else t
  }

  function Moved(t: Target, c: ClientId, state: ClientState): Target
    requires c < |t.clients|
  {
    Tell(t, c).(clients := t.clients[c := t.clients[c].(state := state)],
                states := if Current(t, c) then Publish(t.states, StateFor(state)) else t.states)
  }

  function Spoke(t: Target, c: ClientId, welcome: bool): Target {
    Tell(t, c).(welcome := if Current(t, c) && welcome then Some(c) else t.welcome)
  }

  /** A client gets ready by its welcome, which it hands on in the same stretch. */
  function Greeted(t: Target, c: ClientId): Target
    requires c < |t.clients|
  {
    Spoke(Moved(t, c, Ready), c, true)
  }

  function Settled(t: Target, c: ClientId, rejected: bool): Target
    requires c < |t.clients|
  {
    (if rejected then Tell(t, c) else t)
    .(attempt := if t.attempt == Some(t.clients[c].generation) then None else t.attempt)
  }

  /** privilegedPairResult marks the installed runtime if it has the client's generation. */
  function Saved(t: Target, c: ClientId): Target
    requires c < |t.clients|
  {
    var clients := t.clients[c := t.clients[c].(saved := true)];
    if t.runtime.Some? && t.runtime.value < |clients| && clients[t.runtime.value].generation == clients[c].generation
    then t.(clients := clients[t.runtime.value := clients[t.runtime.value].(paired := true)])
    else t.(clients := clients)
  }

  function Heard(t: Target, e: Event): Target
    requires e.ClientMoved? || e.ClientSpoke? || e.ClientFailed? || e.AttemptSettled? || e.CredentialSaved?
  {
    if e.client >= |t.clients| then t
    else match e
      case ClientMoved(c, state) => if state == Ready then Greeted(t, c) else Moved(t, c, state)
      case ClientSpoke(c, welcome) => Spoke(t, c, welcome)
      case ClientFailed(c) => Tell(t, c)
      case AttemptSettled(c, rejected) => Settled(t, c, rejected)
      case CredentialSaved(c) => Saved(t, c)
  }

  /** Every replayed welcome was sent by the client that was ready. */
  predicate OwnReplays(t: Target) {
    forall i :: 0 <= i < |t.notices| && t.notices[i].Replayed? ==> t.notices[i].welcomeFrom == t.notices[i].ready
  }

  /** A client that is not installed and was never told to close. */
  predicate Abandoned(t: Target, c: ClientId) {
    c < |t.clients| && t.runtime != Some(c) && !t.clients[c].closed
  }

  function Next(t: Target, e: Event): Target {
    if e.BeginConnect? || e.BeginDisconnect? || e.BeginRemove? || e.BeginPair? then Begin(t, e)
    else if e.LookupDone? || e.CloseDone? || e.ConnectDone? || e.PairDone? || e.OpFailed? then Continue(t, e)
    else Heard(t, e)
  }

  function Run(t: Target, events: seq<Event>): Target
    decreases |events|
  {
    if events == [] then t else Run(Next(t, events[0]), events[1..])
  }
}
