/**
 The promises of the browser runtime, in every state that some run from the empty runtime reaches.
 */
module TabTheorems {
  import opened Wrappers
  import opened BrowserSurfaces
  import opened TabModel
  import opened TabInvariants

  /** The chrome has at most one attached tab, across all owners. */
  lemma OneAttachedTab(s: Tabs, i: SurfaceId, j: SurfaceId)
    requires Reachable(s) && i in s.surfaces && j in s.surfaces
    ensures s.surfaces[i].surface.visible && s.surfaces[j].surface.visible ==> i == j
    ensures s.surfaces[i].surface.attached ==>
              && !s.surfaces[i].surface.closed && s.surfaces[i].surface.visible && s.surfaces[i].surface.view.Some?
              && (s.surfaces[j].surface.attached ==> i == j)
  {
    ReachableInv(s);
    assert s.surfaces[i].surface.visible ==> IsVisible(s.surfaces, i);
    assert s.surfaces[j].surface.visible ==> IsVisible(s.surfaces, j);
  }

  /** The surface map, the owner map and the ordered list hold the same ids, each once. */
  lemma IndexesHoldTheSameIds(s: Tabs)
    requires Reachable(s)
    ensures s.owners.Keys == s.surfaces.Keys == Listed(s.ordered)
    ensures |s.ordered| == |s.surfaces|
  {
    ReachableInv(s);
    DistinctCount(s.ordered);
    assert s.surfaces.Keys == Listed(s.ordered);
  }

  ghost function Listed(ids: seq<SurfaceId>): set<SurfaceId> {
    set id | id in ids
  }

  lemma {:induction false} DistinctCount(ids: seq<SurfaceId>)
    requires Distinct(ids)
    ensures |Listed(ids)| == |ids|
  {
    if ids != [] {
      DistinctCount(ids[1..]);
      assert Listed(ids) == Listed(ids[1..]) + {ids[0]};
      assert forall i :: 0 < i < |ids| ==> ids[i] != ids[0];
      assert ids[0] !in Listed(ids[1..]);
    }
  }

  /** Each authenticated profile's in-use count is its number of open surfaces. */
  lemma ProfileCountIsOpenSurfaces(s: Tabs, name: nat)
    requires Reachable(s)
    ensures Count(s.inUse, Authenticated(name))
            == |set id | id in s.surfaces && s.surfaces[id].profile == Authenticated(name)|
  {
    ReachableInv(s);
    assert Holders(s.surfaces, Authenticated(name))
        == set id | id in s.surfaces && s.surfaces[id].profile == Authenticated(name);
  }

  /** activeSurface finds one of the caller's own surfaces exactly when the caller has one. */
  lemma ActiveSurfaceIsOwn(s: Tabs, owner: Owner)
    requires Reachable(s)
    ensures var found := ActiveSurface(s, owner);
            && (found.Some? ==> Owns(s, owner, found.value))
            && (found.None? ==> forall id :: !Owns(s, owner, id))
  {
    ReachableInv(s);
  }

  /** While a surface exists its owner stays the same and its view generation never falls. */
  lemma OwnerAndGenerationOverARun(s: Tabs, s': Tabs, id: SurfaceId)
    requires Reachable(s) && Leads(s, s') && id in s.surfaces && id in s'.surfaces
    ensures id in s.owners && id in s'.owners && s'.owners[id] == s.owners[id]
    ensures s.surfaces[id].surface.generation <= s'.surfaces[id].surface.generation
    ensures s.surfaces[id].surface.view.Some? && s'.surfaces[id].surface.view.Some?
            && s.surfaces[id].surface.view != s'.surfaces[id].surface.view ==>
              s.surfaces[id].surface.generation < s'.surfaces[id].surface.generation
  {
    ReachableInv(s);
    LeadsFollows(s, s');
    assert Advances(At(s, id).surface, At(s', id).surface);
  }

  // ---- crash recovery ----

  lemma ViewNeverReturns(a: Option<Surface>, b: Option<Surface>, c: Option<Surface>, t: Target)
    requires Advances(a, b) && Advances(b, c) && StillShown(a, t) && !StillShown(b, t)
    requires b.Some? ==> !b.value.closed
    ensures !StillShown(c, t)
  {
  }

  /** Once a view is no longer shown it is never shown again, so a generation is replaced at most once. */
  lemma ReplacedViewNeverReturns(first: Tabs, middle: Tabs, last: Tabs, t: Target)
    requires Reachable(first) && Leads(first, middle) && Leads(middle, last)
    requires Current(first, t) && !Current(middle, t)
    ensures !Current(last, t)
  {
    ReachableInv(first);
    LeadsFollows(first, middle);
    LeadsFollows(middle, last);
    assert SlotOk(t.id, At(middle, t.id));
    ViewNeverReturns(At(first, t.id).surface, At(middle, t.id).surface, At(last, t.id).surface, t);
  }

  /** The view a surface shows, as a recovery target. */
  function Shown(s: Tabs, id: SurfaceId): Target
    requires id in s.surfaces && s.surfaces[id].surface.view.Some?
  {
    Target(id, s.surfaces[id].surface.view.value, s.surfaces[id].surface.generation)
  }

  predicate Renewed(s: Tabs, s': Tabs, id: SurfaceId) {
    id in s.surfaces && id in s'.surfaces && s'.surfaces[id].surface.generation != s.surfaces[id].surface.generation
  }

  lemma BeginRenewsTarget(s: Tabs, t: Target, built: bool, added: bool, id: SurfaceId)
    requires Renewed(s, BeginRecovery(s, t, built, added), id)
    ensures Current(s, t) && t.id == id
    ensures BeginRecovery(s, t, built, added).surfaces[id].surface.generation == s.surfaces[id].surface.generation + 1
  {
  }

  lemma CrashRenewsTarget(s: Tabs, t: Target, built: bool, added: bool, id: SurfaceId)
    requires Renewed(s, Crash(s, t, built, added), id)
    ensures Current(s, t) && t.id == id && id !in s.recoveries
    ensures Crash(s, t, built, added).surfaces[id].surface.generation == s.surfaces[id].surface.generation + 1
  {
    var marked := SetSurface(s, t.id, s.surfaces[t.id].surface.(crashed := true));
    if t.id !in s.recoveries {
      BeginRenewsTarget(marked.(loops := marked.loops[t.id := Loops(marked, t.id) + 1]), t, built, added, id);
    }
  }

  lemma ResumeRenewsTarget(s: Tabs, i: SurfaceId, built: bool, added: bool, adapted: bool, network: bool, id: SurfaceId)
    requires SlotOk(i, At(s, i)) && Renewed(s, Resume(s, i, built, added, adapted, network), id)
    ensures i == id && id in s.recoveries && s.surfaces[id].surface.view.Some?
    ensures s.recoveries[id].target == Shown(s, id) || s.recoveries[id].pending == Some(Shown(s, id))
    ensures Resume(s, i, built, added, adapted, network).surfaces[id].surface.generation
            == s.surfaces[id].surface.generation + 1
  {
    var r := s.recoveries[i];
    if r.stage == Returning && r.pending.Some? {
      BeginRenewsTarget(s, r.pending.value, built, added, id);
    }
  }

  lemma OtherStepsNeverRenew(s: Tabs, e: Event, id: SurfaceId)
    requires !e.Crashed? && !e.Resumed? && id in s.surfaces && id in s.usedIds && s.surfaces[id].surface.view.Some?
    ensures !Renewed(s, Next(s, e), id)
  {
    match e
    case Created(other, owner, profile, network) => CreateNeverRenews(s, other, owner, profile, network, id);
    case Activated(other, owner, added) => ActivateNeverRenews(s, other, owner, added, id);
    case Closed(other) => CloseNeverRenews(s, other, id);
    case Restored(other, added) => RestoreNeverRenews(s, other, added, id);
    case _ =>
  }

  lemma CreateNeverRenews(s: Tabs, other: SurfaceId, owner: Owner, profile: Profile, network: bool, id: SurfaceId)
    requires id in s.surfaces && id in s.usedIds
    ensures !Renewed(s, Create(s, other, owner, profile, network), id)
  {
  }

  lemma ActivateNeverRenews(s: Tabs, other: SurfaceId, owner: Owner, added: bool, id: SurfaceId)
    requires id in s.surfaces && s.surfaces[id].surface.view.Some?
    ensures !Renewed(s, Activate(s, other, owner, added), id)
  {
  }

  lemma CloseNeverRenews(s: Tabs, other: SurfaceId, id: SurfaceId)
    requires id in s.surfaces
    ensures !Renewed(s, Remove(s, other), id)
  {
  }

  lemma RestoreNeverRenews(s: Tabs, other: SurfaceId, added: bool, id: SurfaceId)
    requires id in s.surfaces && s.surfaces[id].surface.view.Some?
    ensures !Renewed(s, Restore(s, other, added), id)
  {
  }

  /**
   A view that is shown is exchanged for another one only by its own recovery: by the crash report that
   starts a loop for it, or in a step of the loop whose current or pending target it is.
   */
  lemma ReplacedOnlyByItsOwnRecovery(s: Tabs, e: Event, id: SurfaceId)
    requires Reachable(s) && Renewed(s, Next(s, e), id) && s.surfaces[id].surface.view.Some?
    ensures Next(s, e).surfaces[id].surface.generation == s.surfaces[id].surface.generation + 1
    ensures || (e.Crashed? && e.target == Shown(s, id) && id !in s.recoveries)
            || (e.Resumed? && e.id == id && id in s.recoveries
                && (s.recoveries[id].target == Shown(s, id) || s.recoveries[id].pending == Some(Shown(s, id))))
  {
    ReachableInv(s);
    if e.Crashed? {
      CrashRenewsTarget(s, e.target, e.built, e.added, id);
    } else if e.Resumed? {
      assert SlotOk(e.id, At(s, e.id));
      ResumeRenewsTarget(s, e.id, e.built, e.added, e.adapted, e.network, id);
    } else {
      OtherStepsNeverRenew(s, e, id);
    }
  }

  /**
   At most one loop runs for a surface, exactly while it is registered; what is pending is strictly newer
   than what the loop works on; and a crashed view that is still shown is the loop's target or pending, so
   no crash is left behind when a loop ends, whether it returns or throws.
   */
  lemma NoCrashLeftUnhandled(s: Tabs, id: SurfaceId)
    requires Reachable(s)
    ensures 0 <= Loops(s, id) <= 1 && (Loops(s, id) == 1 <==> id in s.recoveries)
    ensures id in s.recoveries && s.recoveries[id].pending.Some? ==>
              s.recoveries[id].target.generation < s.recoveries[id].pending.value.generation
    ensures id in s.surfaces && s.surfaces[id].surface.crashed ==>
              && Loops(s, id) == 1 && s.surfaces[id].surface.view.Some?
              && (s.recoveries[id].target == Shown(s, id) || s.recoveries[id].pending == Some(Shown(s, id)))
  {
    ReachableInv(s);
    assert SlotOk(id, At(s, id));
  }
}
