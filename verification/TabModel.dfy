/**
 The state of the browser runtime between two turns of the event loop, and one function per atomic
 step (apps/desktop/src/browser-runtime.ts, apps/desktop/src/browser-profiles.ts). Whatever the
 environment decides (which event comes next, whether a native call fails) is part of the event.
 */
module TabModel {
  import opened Wrappers
  import opened BrowserSurfaces

  type Owner = nat

  datatype Tab = Tab(surface: Surface, profile: Profile)

  /** The crashed view a recovery is meant for. */
  datatype Target = Target(id: SurfaceId, contents: Contents, generation: nat)

  /** The await at which a recovery loop is suspended. */
  datatype Stage = Disposing | Replaced | Returning

  datatype Recovery = Recovery(target: Target, pending: Option<Target>, stage: Stage)

  datatype Tabs = Tabs(
    surfaces: map<SurfaceId, Tab>,
    owners: map<SurfaceId, Owner>,
    ordered: seq<SurfaceId>,
    active: map<Owner, SurfaceId>,
    inUse: map<Profile, nat>,
    networks: set<SurfaceId>,
    recoveries: map<SurfaceId, Recovery>,
    loops: map<SurfaceId, int>,   // how many runRecovery calls are in flight, by surface
    usedIds: set<SurfaceId>,      // every id ever given to a surface
    nextContents: Contents        // the identity of the next native view
  )

  const EMPTY := Tabs(map[], map[], [], map[], map[], {}, map[], map[], {}, 0)

  // ---- browser-profiles.ts: the in-use counters ----

  function Count(inUse: map<Profile, nat>, profile: Profile): nat {
    if profile in inUse then inUse[profile] else 0
  }

  function MarkInUse(inUse: map<Profile, nat>, profile: Profile): map<Profile, nat> {
    if profile.Isolated? then inUse else inUse[profile := Count(inUse, profile) + 1]
  }

  function Release(inUse: map<Profile, nat>, profile: Profile): map<Profile, nat> {
    if profile.Isolated? then inUse
    else if Count(inUse, profile) <= 1 then inUse - {profile}
    else inUse[profile := Count(inUse, profile) - 1]
  }

  // ---- tabs ----

  predicate Owns(s: Tabs, owner: Owner, id: SurfaceId) {
    id in s.surfaces && id in s.owners && s.owners[id] == owner
  }

  /** The newest of the listed surfaces that belongs to the owner. */
  function LastOwned(ordered: seq<SurfaceId>, owners: map<SurfaceId, Owner>, owner: Owner): (r: Option<SurfaceId>)
    ensures r.Some? ==> r.value in ordered && r.value in owners && owners[r.value] == owner
    ensures r.None? ==> forall id :: id in ordered && id in owners ==> owners[id] != owner
  {
    if ordered == [] then None
    else
      var last := ordered[|ordered| - 1];
      if last in owners && owners[last] == owner then Some(last)
      else LastOwned(ordered[..|ordered| - 1], owners, owner)
  }

  function ActiveSurface(s: Tabs, owner: Owner): Option<SurfaceId> {
    if owner in s.active && s.active[owner] in s.owners && s.owners[s.active[owner]] == owner
    then Some(s.active[owner])
    else LastOwned(s.ordered, s.owners, owner)
  }

  function Create(s: Tabs, id: SurfaceId, owner: Owner, profile: Profile, network: bool): Tabs {
    if id in s.usedIds then s
    else s.(surfaces := s.surfaces[id := Tab(Fresh(s.nextContents), profile)],
            owners := s.owners[id := owner],
            ordered := s.ordered + [id],
            inUse := MarkInUse(s.inUse, profile),
            networks := if network then s.networks + {id} else s.networks,
            usedIds := s.usedIds + {id},
            nextContents := s.nextContents + 1)
  }

  function SetSurface(s: Tabs, id: SurfaceId, surface: Surface): Tabs
    requires id in s.surfaces
  {
    s.(surfaces := s.surfaces[id := s.surfaces[id].(surface := surface)])
  }

  /** The visibility every surface gets when one of them is brought to the front. */
  function Fronted(surfaces: map<SurfaceId, Tab>, front: SurfaceId, added: bool): map<SurfaceId, Tab> {
    map id | id in surfaces ::
      surfaces[id].(surface := SetVisible(surfaces[id].surface, id == front, added))
  }

  function Activate(s: Tabs, id: SurfaceId, owner: Owner, added: bool): Tabs {
    if !Owns(s, owner, id) then s
    else s.(surfaces := Fronted(s.surfaces, id, added), active := s.active[owner := id])
  }

  function Hide(s: Tabs, id: SurfaceId): Tabs {
    if id !in s.surfaces then s else SetSurface(s, id, SetVisible(s.surfaces[id].surface, false, false))
  }

  function Without(ordered: seq<SurfaceId>, id: SurfaceId): (r: seq<SurfaceId>)
    ensures forall x :: x in r ==> x in ordered
    ensures forall x :: x in ordered && x != id ==> x in r
  {
    if ordered == [] then []
    else if ordered[0] == id then ordered[1..]
    else [ordered[0]] + Without(ordered[1..], id)
  }

  /** The active table after a surface of the owner has left the indexes. */
  function Reactivated(s: Tabs, owner: Owner, gone: SurfaceId): map<Owner, SurfaceId> {
    if owner !in s.active || s.active[owner] != gone then s.active
    else match LastOwned(s.ordered, s.owners, owner)
      case None => s.active - {owner}
      case Some(next) => s.active[owner := next]
  }

  function Remove(s: Tabs, id: SurfaceId): Tabs {
    if id !in s.surfaces || id !in s.owners then s
    else
      var left := s.(surfaces := s.surfaces - {id}, owners := s.owners - {id}, ordered := Without(s.ordered, id),
                     inUse := Release(s.inUse, s.surfaces[id].profile), networks := s.networks - {id});
      left.(active := Reactivated(left, s.owners[id], id))
  }

  function Discard(s: Tabs, id: SurfaceId): Tabs {
    if id !in s.surfaces || s.surfaces[id].surface.visible then s
    else SetSurface(s, id, CloseView(s.surfaces[id].surface))
  }

  function Restore(s: Tabs, id: SurfaceId, added: bool): Tabs {
    if id !in s.surfaces || s.surfaces[id].surface.view.Some? then s
    else SetSurface(s, id, CreateView(s.surfaces[id].surface, s.nextContents, added))
         .(nextContents := s.nextContents + 1)
  }

  /** A network call makes sure the surface has a network controller. */
  function UseNetwork(s: Tabs, id: SurfaceId): Tabs {
    if id in s.surfaces then s.(networks := s.networks + {id}) else s
  }

  // ---- crash recovery ----

  predicate Current(s: Tabs, t: Target) {
    t.id in s.surfaces && Shows(s.surfaces[t.id].surface, t.contents, t.generation)
  }

  function SetRecovery(s: Tabs, id: SurfaceId, r: Recovery): Tabs {
    s.(recoveries := s.recoveries[id := r])
  }

  function Loops(s: Tabs, id: SurfaceId): int {
    if id in s.loops then s.loops[id] else 0
  }

  /** A loop returns, or is rejected, through its finally block. */
  function EndLoop(s: Tabs, id: SurfaceId): Tabs {
    s.(recoveries := s.recoveries - {id}, loops := s.loops[id := Loops(s, id) - 1])
  }

  /** recoverSurface after its await on the network controller. */
  function ReplaceTarget(s: Tabs, r: Recovery, built: bool, added: bool): Tabs {
    var id := r.target.id;
    if !Current(s, r.target) then SetRecovery(s, id, r.(stage := Returning))
    else
      var replaced := SetSurface(s, id, Replace(s.surfaces[id].surface, s.nextContents, built, added))
                      .(nextContents := s.nextContents + 1);
      if built then SetRecovery(replaced, id, r.(stage := Replaced)) else EndLoop(replaced, id)
  }

  /** One turn of the loop body up to its first await. */
  function BeginRecovery(s: Tabs, t: Target, built: bool, added: bool): Tabs {
    var r := Recovery(t, None, Disposing);
    if !Current(s, t) then SetRecovery(s, t.id, r.(stage := Returning))
    else if t.id in s.networks then SetRecovery(s, t.id, r).(networks := s.networks - {t.id})
    else ReplaceTarget(s, r, built, added)
  }

  function Schedule(s: Tabs, t: Target, built: bool, added: bool): Tabs {
    if !Current(s, t) then s
    else if t.id in s.recoveries then
      var r := s.recoveries[t.id];
      if r.target == t || r.pending == Some(t) then s else SetRecovery(s, t.id, r.(pending := Some(t)))
    else BeginRecovery(s.(loops := s.loops[t.id := Loops(s, t.id) + 1]), t, built, added)
  }

  /** The renderer of a view is gone; only the current view of an open surface is listened to. */
  function Crash(s: Tabs, t: Target, built: bool, added: bool): Tabs {
    if !Current(s, t) then s
    else Schedule(SetSurface(s, t.id, s.surfaces[t.id].surface.(crashed := true)), t, built, added)
  }

  /** A suspended loop is resumed; `adapted` says whether the new WebContents and its session could be read. */
  function Resume(s: Tabs, id: SurfaceId, built: bool, added: bool, adapted: bool, network: bool): Tabs {
    if id !in s.recoveries then s
    else
      var r := s.recoveries[id];
      match r.stage
      case Disposing => ReplaceTarget(s, r, built, added)
      case Replaced =>
        // the adapter reads the live view: a surface that was closed or has no view makes it throw
        if !adapted || id !in s.surfaces || s.surfaces[id].surface.view.None? then EndLoop(s, id)
        else SetRecovery(s, id, r.(stage := Returning))
             .(networks := if network then s.networks + {id} else s.networks)
      case Returning =>
        match r.pending
        case None => EndLoop(s, id)
        case Some(next) => BeginRecovery(s, next, built, added)
  }

  /**
   A loop past the disposal of its network controller waits for settled promises only. Their continuations run before
   the next native event, so no crash of the surface is reported in between.
   */
  predicate Settling(s: Tabs, id: SurfaceId) {
    id in s.recoveries && s.recoveries[id].stage != Disposing
  }

  // ---- runs ----

  datatype Event =
    | Created(id: SurfaceId, owner: Owner, profile: Profile, network: bool)
    | Activated(id: SurfaceId, owner: Owner, added: bool)
    | Hidden(id: SurfaceId)
    | Closed(id: SurfaceId)
    | Discarded(id: SurfaceId)
    | Restored(id: SurfaceId, added: bool)
    | NetworkUsed(id: SurfaceId)
    | Crashed(target: Target, built: bool, added: bool)
    | Resumed(id: SurfaceId, built: bool, added: bool, adapted: bool, network: bool)

  function Next(s: Tabs, e: Event): Tabs {
    match e
    case Created(id, owner, profile, network) => Create(s, id, owner, profile, network)
    case Activated(id, owner, added) => Activate(s, id, owner, added)
    case Hidden(id) => Hide(s, id)
    case Closed(id) => Remove(s, id)
    case Discarded(id) => Discard(s, id)
    case Restored(id, added) => Restore(s, id, added)
    case NetworkUsed(id) => UseNetwork(s, id)
    case Crashed(t, built, added) => if Settling(s, t.id) then s else Crash(s, t, built, added)
    case Resumed(id, built, added, adapted, network) => Resume(s, id, built, added, adapted, network)
  }

  function Run(s: Tabs, events: seq<Event>): Tabs
    decreases |events|
  {
    if events == [] then s else Run(Next(s, events[0]), events[1..])
  }

  /** Some run takes the first state to the second. */
  ghost predicate Leads(s: Tabs, s': Tabs) {
    exists events :: Run(s, events) == s'
  }

  ghost predicate Reachable(s: Tabs) {
    Leads(EMPTY, s)
  }
}
