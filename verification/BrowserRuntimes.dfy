/**
 The browser runtime with its maps and its list updated in place (apps/desktop/src/browser-runtime.ts).
 Every method is proved against the step function of TabModel it carries out.
 */
module BrowserRuntimes {
  import opened Wrappers
  import opened BrowserSurfaces
  import opened TabModel

  /** The in-use counters of apps/desktop/src/browser-profiles.ts. */
  class BrowserProfileRegistry {
    var activeProfileCounts: map<Profile, nat>

    constructor ()
      ensures activeProfileCounts == map[]
    {
      activeProfileCounts := map[];
    }

    /** A profile that is not isolated counts one use more, and no other profile changes. */
    method Mark(profile: Profile)
      modifies this
      ensures activeProfileCounts == MarkInUse(old(activeProfileCounts), profile)
      ensures !profile.Isolated? ==> Count(activeProfileCounts, profile) == Count(old(activeProfileCounts), profile) + 1
      ensures forall q :: q != profile || q.Isolated? ==> Count(activeProfileCounts, q) == Count(old(activeProfileCounts), q)
    {
      if profile.Isolated? { return; }
      var count := if profile in activeProfileCounts then activeProfileCounts[profile] else 0;
      activeProfileCounts := activeProfileCounts[profile := count + 1];
    }

    /** A profile in use counts one use less; at none its entry is gone, and no other profile changes. */
    method Unmark(profile: Profile)
      modifies this
      ensures activeProfileCounts == Release(old(activeProfileCounts), profile)
      ensures !profile.Isolated? && Count(old(activeProfileCounts), profile) > 0 ==>
                Count(activeProfileCounts, profile) == Count(old(activeProfileCounts), profile) - 1
      ensures !profile.Isolated? && Count(old(activeProfileCounts), profile) <= 1 ==> profile !in activeProfileCounts
      ensures forall q :: q != profile || q.Isolated? ==> Count(activeProfileCounts, q) == Count(old(activeProfileCounts), q)
    {
      if profile.Isolated? { return; }
      var count := if profile in activeProfileCounts then activeProfileCounts[profile] else 0;
      if count <= 1 {
        activeProfileCounts := activeProfileCounts - {profile};
      } else {
        activeProfileCounts := activeProfileCounts[profile := count - 1];
      }
    }
  }

  lemma {:induction false} WithoutIsSplice(ids: seq<SurfaceId>, at: nat)
    requires at < |ids| && forall i :: 0 <= i < at ==> ids[i] != ids[at]
    ensures Without(ids, ids[at]) == ids[..at] + ids[at + 1..]
  {
    if at > 0 {
      WithoutIsSplice(ids[1..], at - 1);
      assert ids[..at] == [ids[0]] + ids[1..][..at - 1];
    }
  }

  lemma {:induction false} WithoutAbsent(ids: seq<SurfaceId>, id: SurfaceId)
    requires id !in ids
    ensures Without(ids, id) == ids
  {
    if ids != [] { WithoutAbsent(ids[1..], id); }
  }

  /** Removes an id from a list the way indexOf and splice do. */
  method Splice(ids: seq<SurfaceId>, id: SurfaceId) returns (r: seq<SurfaceId>)
    ensures r == Without(ids, id)
  {
    var at := 0;
    while at < |ids| && ids[at] != id
      invariant at <= |ids| && forall i :: 0 <= i < at ==> ids[i] != id
    {
      at := at + 1;
    }
    if at < |ids| {
      WithoutIsSplice(ids, at);
      r := ids[..at] + ids[at + 1..];
    } else {
      WithoutAbsent(ids, id);
      r := ids;
    }
  }

  /** Searches a list backwards for a surface of the owner. */
  method FindLastOwned(ids: seq<SurfaceId>, owners: map<SurfaceId, Owner>, owner: Owner)
    returns (r: Option<SurfaceId>)
    ensures r == LastOwned(ids, owners, owner)
  {
    var n := |ids|;
    assert ids[..n] == ids;
    while n > 0
      invariant 0 <= n <= |ids|
      invariant LastOwned(ids, owners, owner) == LastOwned(ids[..n], owners, owner)
    {
      if ids[n - 1] in owners && owners[ids[n - 1]] == owner { return Some(ids[n - 1]); }
      assert ids[..n][..n - 1] == ids[..n - 1];
      n := n - 1;
    }
    r := None;
  }

  class BrowserRuntime {
    const registry: BrowserProfileRegistry
    var surfaces: map<SurfaceId, Tab>
    var surfaceOwners: map<SurfaceId, Owner>
    var orderedSurfaceIds: seq<SurfaceId>
    var activeSurfaceIds: map<Owner, SurfaceId>
    var networkControllers: set<SurfaceId>
    var recoveries: map<SurfaceId, Recovery>
    var nextContents: Contents
    ghost var loops: map<SurfaceId, int>
    ghost var usedIds: set<SurfaceId>

    ghost function Model(): Tabs
      reads this, registry
    {
      Tabs(surfaces, surfaceOwners, orderedSurfaceIds, activeSurfaceIds, registry.activeProfileCounts,
           networkControllers, recoveries, loops, usedIds, nextContents)
    }

    constructor ()
      ensures fresh(registry) && Model() == EMPTY
    {
      registry := new BrowserProfileRegistry();
      surfaces, surfaceOwners, orderedSurfaceIds, activeSurfaceIds := map[], map[], [], map[];
      networkControllers, recoveries, nextContents := {}, map[], 0;
      loops, usedIds := map[], {};
    }

    /** A surface is made hidden, entered into every index and counted for its profile. */
    method CreateSurface(id: SurfaceId, owner: Owner, profile: Profile, network: bool)
      requires id !in usedIds
      modifies this, registry
      ensures Model() == Create(old(Model()), id, owner, profile, network)
    {
      surfaces, nextContents := surfaces[id := Tab(Fresh(nextContents), profile)], nextContents + 1;
      surfaceOwners := surfaceOwners[id := owner];
      orderedSurfaceIds := orderedSurfaceIds + [id];
      usedIds := usedIds + {id};
      registry.Mark(profile);
      if network { networkControllers := networkControllers + {id}; }
    }

    method ActiveSurfaceOf(owner: Owner) returns (id: Option<SurfaceId>)
      ensures id == ActiveSurface(Model(), owner)
    {
      if owner in activeSurfaceIds {
        var active := activeSurfaceIds[owner];
        if active in surfaceOwners && surfaceOwners[active] == owner { return Some(active); }
      }
      id := FindLastOwned(orderedSurfaceIds, surfaceOwners, owner);
    }

    /** Every other surface is hidden one by one, then the requested one is shown. */
    method ActivateSurface(id: SurfaceId, owner: Owner, added: bool) returns (found: bool)
      modifies this`surfaces, this`activeSurfaceIds
      ensures found == Owns(old(Model()), owner, id)
      ensures Model() == Activate(old(Model()), id, owner, added)
      ensures found ==> activeSurfaceIds == old(activeSurfaceIds)[owner := id] && surfaces.Keys == old(surfaces).Keys
      ensures found ==> forall j :: j in surfaces && !old(surfaces)[j].surface.closed ==>
                          (surfaces[j].surface.visible <==> j == id)
    {
      found := id in surfaces && id in surfaceOwners && surfaceOwners[id] == owner;
      if !found { return; }
      var todo := surfaces.Keys - {id};
      while todo != {}
        invariant activeSurfaceIds == old(activeSurfaceIds)
        invariant todo <= old(surfaces).Keys - {id} && surfaces.Keys == old(surfaces).Keys
        invariant surfaces[id] == old(surfaces)[id]
        invariant forall j :: j in surfaces && j != id ==>
          surfaces[j] == if j in todo then old(surfaces)[j] else Fronted(old(surfaces), id, added)[j]
        decreases todo
      {
        var j :| j in todo;
        surfaces := surfaces[j := surfaces[j].(surface := SetVisible(surfaces[j].surface, false, added))];
        todo := todo - {j};
      }
      surfaces := surfaces[id := surfaces[id].(surface := SetVisible(surfaces[id].surface, true, added))];
      activeSurfaceIds := activeSurfaceIds[owner := id];
      assert surfaces == Fronted(old(surfaces), id, added);
    }

    method RemoveSurface(id: SurfaceId, owner: Owner) returns (found: bool)
      modifies this, registry
      ensures found == Owns(old(Model()), owner, id)
      ensures Model() == if found then Remove(old(Model()), id) else old(Model())
    {
      found := id in surfaces && id in surfaceOwners && surfaceOwners[id] == owner;
      if !found { return; }
      networkControllers := networkControllers - {id};
      orderedSurfaceIds := Splice(orderedSurfaceIds, id);
      registry.Unmark(surfaces[id].profile);
      surfaces, surfaceOwners := surfaces - {id}, surfaceOwners - {id};
      if owner in activeSurfaceIds && activeSurfaceIds[owner] == id {
        var next := FindLastOwned(orderedSurfaceIds, surfaceOwners, owner);
        match next
        case None => activeSurfaceIds := activeSurfaceIds - {owner};
        case Some(other) => activeSurfaceIds := activeSurfaceIds[owner := other];
      }
    }

    predicate IsCurrent(t: Target)
      reads this`surfaces
    {
      t.id in surfaces && Shows(surfaces[t.id].surface, t.contents, t.generation)
    }

    method Suspend(r: Recovery)
      modifies this`recoveries
      ensures recoveries == old(recoveries)[r.target.id := r]
    {
      recoveries := recoveries[r.target.id := r];
    }

    /** The finally block of runRecovery, for a loop that returns and for one that is rejected. */
    method FinishLoop(id: SurfaceId)
      modifies this`recoveries, this`loops
      ensures Model() == EndLoop(old(Model()), id)
    {
      loops := loops[id := Loops(Model(), id) - 1];
      recoveries := recoveries - {id};
    }

    method ReplaceCrashed(r: Recovery, built: bool, added: bool)
      modifies this
      ensures Model() == ReplaceTarget(old(Model()), r, built, added)
    {
      if !IsCurrent(r.target) {
        Suspend(r.(stage := Returning));
        return;
      }
      var tab := surfaces[r.target.id];
      surfaces := surfaces[r.target.id := tab.(surface := Replace(tab.surface, nextContents, built, added))];
      nextContents := nextContents + 1;
      if built { Suspend(r.(stage := Replaced)); } else { FinishLoop(r.target.id); }
    }

    /** One turn of the loop body of runRecovery, up to its first await. */
    method RecoverSurface(t: Target, built: bool, added: bool)
      modifies this
      ensures Model() == BeginRecovery(old(Model()), t, built, added)
    {
      var r := Recovery(t, None, Disposing);
      if !IsCurrent(t) {
        Suspend(r.(stage := Returning));
      } else if t.id in networkControllers {
        networkControllers := networkControllers - {t.id};
        Suspend(r);
      } else {
        ReplaceCrashed(r, built, added);
      }
    }

    method ScheduleSurfaceRecovery(t: Target, built: bool, added: bool)
      modifies this
      ensures Model() == Schedule(old(Model()), t, built, added)
    {
      if !IsCurrent(t) { return; }
      if t.id in recoveries {
        var existing := recoveries[t.id];
        if existing.target == t || existing.pending == Some(t) { return; }
        recoveries := recoveries[t.id := existing.(pending := Some(t))];
        return;
      }
      loops := loops[t.id := Loops(Model(), t.id) + 1];
      RecoverSurface(t, built, added);
    }

    method RendererGone(t: Target, built: bool, added: bool)
      modifies this
      ensures Model() == Crash(old(Model()), t, built, added)
    {
      if !IsCurrent(t) { return; }
      surfaces := surfaces[t.id := surfaces[t.id].(surface := surfaces[t.id].surface.(crashed := true))];
      ScheduleSurfaceRecovery(t, built, added);
    }

    /** A loop that was suspended at an await goes on to the next one. */
    method ResumeRecovery(id: SurfaceId, built: bool, added: bool, adapted: bool, network: bool)
      modifies this
      ensures Model() == Resume(old(Model()), id, built, added, adapted, network)
    {
      if id !in recoveries { return; }
      var r := recoveries[id];
      match r.stage
      case Disposing => ReplaceCrashed(r, built, added);
      case Replaced =>
        if !adapted || id !in surfaces || surfaces[id].surface.view.None? {
          FinishLoop(id);
        } else {
          recoveries := recoveries[id := r.(stage := Returning)];
          if network { networkControllers := networkControllers + {id}; }
        }
      case Returning =>
        match r.pending
        case None => FinishLoop(id);
        case Some(next) => RecoverSurface(next, built, added);
    }
  }
}
