/**
 What every run of the browser runtime keeps, from the empty runtime and for every sequence of events.
 */
module TabInvariants {
  import opened Wrappers
  import opened BrowserSurfaces
  import opened TabModel

  // ---- the invariants over all surfaces ----

  predicate Distinct(ids: seq<SurfaceId>) {
    forall i, j :: 0 <= i < j < |ids| ==> ids[i] != ids[j]
  }

  /** The three indexes hold the same ids, and an active entry names a surface of that owner. */
  ghost predicate IndexesAgree(s: Tabs) {
    && s.owners.Keys == s.surfaces.Keys
    && (forall id :: id in s.ordered <==> id in s.surfaces)
    && Distinct(s.ordered)
    && s.surfaces.Keys + s.recoveries.Keys <= s.usedIds
    && forall o :: o in s.active ==> s.active[o] in s.owners && s.owners[s.active[o]] == o
  }

  predicate IsVisible(surfaces: map<SurfaceId, Tab>, id: SurfaceId) {
    id in surfaces && surfaces[id].surface.visible
  }

  ghost predicate OneVisible(surfaces: map<SurfaceId, Tab>) {
    && (forall id :: id in surfaces ==> Ok(surfaces[id].surface) && !surfaces[id].surface.closed)
    && forall i, j :: IsVisible(surfaces, i) && IsVisible(surfaces, j) ==> i == j
  }

  ghost function Holders(surfaces: map<SurfaceId, Tab>, profile: Profile): set<SurfaceId> {
    set id | id in surfaces && surfaces[id].profile == profile
  }

  /** Each authenticated profile is counted once per open surface, and a zero count is no entry. */
  ghost predicate CountsAgree(surfaces: map<SurfaceId, Tab>, inUse: map<Profile, nat>) {
    && Isolated !in inUse
    && (forall p :: p in inUse ==> inUse[p] > 0)
    && forall p :: p != Isolated ==> Count(inUse, p) == |Holders(surfaces, p)|
  }

  // ---- the invariant of one surface and its recovery loop ----

  /** The part of the state that belongs to one surface id. */
  datatype Slot = Slot(surface: Option<Surface>, recovery: Option<Recovery>, loops: int)

  function At(s: Tabs, id: SurfaceId): Slot {
    Slot(if id in s.surfaces then Some(s.surfaces[id].surface) else None,
         if id in s.recoveries then Some(s.recoveries[id]) else None,
         Loops(s, id))
  }

  predicate StillShown(surface: Option<Surface>, t: Target) {
    surface.Some? && Shows(surface.value, t.contents, t.generation)
  }

  /** A target belongs to a view that the surface has shown before, or shows now and has lost its renderer. */
  predicate Known(surface: Option<Surface>, t: Target) {
    surface.Some? ==>
      && (StillShown(surface, t) ==> surface.value.crashed)
      && t.generation <= surface.value.generation
      && (t.generation == surface.value.generation && surface.value.view.Some? ==>
            surface.value.view == Some(t.contents))
  }

  /** A loop's target is known, past its first await it is outdated, and what is pending is strictly newer. */
  predicate RecoveryOk(id: SurfaceId, surface: Option<Surface>, r: Recovery) {
    && r.target.id == id && Known(surface, r.target)
    && (r.stage != Disposing ==> !StillShown(surface, r.target))
    && (r.pending.Some? ==>
          && r.pending.value.id == id && Known(surface, r.pending.value)
          && r.target.generation < r.pending.value.generation)
  }

  /** Some loop has the view the surface shows as its target or as its pending target. */
  predicate Awaited(id: SurfaceId, surface: Surface, recovery: Option<Recovery>) {
    && surface.view.Some? && recovery.Some?
    && var shown := Target(id, surface.view.value, surface.generation);
       recovery.value.target == shown || recovery.value.pending == Some(shown)
  }

  /**
   At most one loop runs for a surface, and exactly while it is registered; a crashed view that is
   still shown is awaited by that loop, and a view that was just put in has not crashed.
   */
  predicate SlotOk(id: SurfaceId, z: Slot) {
    && (z.surface.Some? ==> Ok(z.surface.value) && !z.surface.value.closed)
    && z.loops == (if z.recovery.Some? then 1 else 0)
    && (z.recovery.Some? ==> RecoveryOk(id, z.surface, z.recovery.value))
    && (z.surface.Some? && z.surface.value.crashed ==> Awaited(id, z.surface.value, z.recovery))
    && (z.surface.Some? && z.recovery.Some? && z.recovery.value.stage == Replaced ==> !z.surface.value.crashed)
  }

  ghost predicate Inv(s: Tabs) {
    && IndexesAgree(s) && OneVisible(s.surfaces) && CountsAgree(s.surfaces, s.inUse)
    && forall id :: SlotOk(id, At(s, id))
  }

  // ---- what a step, and so a run, never undoes ----

  /** A surface never comes back, its generation never falls, and within a generation it only loses its view. */
  predicate Advances(a: Option<Surface>, b: Option<Surface>) {
    b.Some? ==>
      && a.Some? && a.value.generation <= b.value.generation
      && (a.value.generation == b.value.generation ==> b.value.view == a.value.view || b.value.view.None?)
  }

  /** Ids are never taken back, every surface advances, and no owner changes. */
  ghost predicate Follows(s: Tabs, s': Tabs) {
    && s.usedIds <= s'.usedIds
    && (forall id :: id in s.usedIds ==> Advances(At(s, id).surface, At(s', id).surface))
    && forall id :: id in s.usedIds && id in s'.owners ==> id in s.owners && s'.owners[id] == s.owners[id]
  }

  lemma FollowsTrans(s: Tabs, m: Tabs, s': Tabs)
    requires Follows(s, m) && Follows(m, s')
    ensures Follows(s, s')
  {
    forall id | id in s.usedIds ensures Advances(At(s, id).surface, At(s', id).surface) {
      assert Advances(At(s, id).surface, At(m, id).surface);
      assert Advances(At(m, id).surface, At(s', id).surface);
    }
  }

  // ---- steps that touch one surface only ----

  /** Nothing but the native part of one surface and its recovery differs, and it was not brought to the front. */
  ghost predicate Touches(s: Tabs, s': Tabs, id: SurfaceId) {
    && s'.owners == s.owners && s'.ordered == s.ordered && s'.active == s.active
    && s'.inUse == s.inUse && s'.usedIds == s.usedIds
    && s'.surfaces.Keys == s.surfaces.Keys && s'.recoveries.Keys <= s.recoveries.Keys + s.surfaces.Keys
    && (forall j :: j in s.surfaces && j != id ==> s'.surfaces[j] == s.surfaces[j])
    && (id in s.surfaces ==>
          && s'.surfaces[id].profile == s.surfaces[id].profile
          && (s'.surfaces[id].surface.visible ==> s.surfaces[id].surface.visible)
          && Advances(Some(s.surfaces[id].surface), Some(s'.surfaces[id].surface)))
    && (forall j :: j != id ==> At(s', j) == At(s, j))
  }

  lemma TouchSlots(s: Tabs, s': Tabs, id: SurfaceId)
    requires (forall j :: SlotOk(j, At(s, j))) && (forall j :: j != id ==> At(s', j) == At(s, j)) && SlotOk(id, At(s', id))
    ensures forall j :: SlotOk(j, At(s', j))
  {
    forall j ensures SlotOk(j, At(s', j)) {
      assert j != id ==> At(s', j) == At(s, j);
    }
  }

  lemma TouchFollows(s: Tabs, s': Tabs, id: SurfaceId)
    requires Touches(s, s', id)
    ensures Follows(s, s')
  {
    forall j | j in s.usedIds ensures Advances(At(s, j).surface, At(s', j).surface) {
      assert j != id ==> At(s', j) == At(s, j);
    }
  }

  lemma TouchVisible(surfaces: map<SurfaceId, Tab>, surfaces': map<SurfaceId, Tab>)
    requires OneVisible(surfaces) && Alike(surfaces, surfaces')
    ensures OneVisible(surfaces')
  {
    assert forall j :: IsVisible(surfaces', j) ==> IsVisible(surfaces, j);
  }

  lemma TouchKeeps(s: Tabs, s': Tabs, id: SurfaceId)
    requires Inv(s) && Touches(s, s', id) && SlotOk(id, At(s', id))
    ensures Inv(s') && Follows(s, s')
  {
    TouchSlots(s, s', id);
    TouchFollows(s, s', id);
    TouchIndexes(s, s', id);
    TouchTabs(s, s', id);
    TouchVisible(s.surfaces, s'.surfaces);
    TouchCounts(s.surfaces, s'.surfaces, s.inUse);
  }

  lemma TouchIndexes(s: Tabs, s': Tabs, id: SurfaceId)
    requires IndexesAgree(s) && Touches(s, s', id)
    ensures IndexesAgree(s')
  {
  }

  /** No profile changes, no hidden surface comes up, and every surface stays sound. */
  ghost predicate Alike(surfaces: map<SurfaceId, Tab>, surfaces': map<SurfaceId, Tab>) {
    && surfaces'.Keys == surfaces.Keys
    && forall j :: j in surfaces ==>
         && surfaces'[j].profile == surfaces[j].profile
         && (surfaces'[j].surface.visible ==> surfaces[j].surface.visible)
         && Ok(surfaces'[j].surface) && !surfaces'[j].surface.closed
  }

  lemma TouchTabs(s: Tabs, s': Tabs, id: SurfaceId)
    requires Touches(s, s', id) && forall j :: SlotOk(j, At(s', j))
    ensures Alike(s.surfaces, s'.surfaces)
  {
    forall j | j in s.surfaces ensures Ok(s'.surfaces[j].surface) && !s'.surfaces[j].surface.closed {
      assert SlotOk(j, At(s', j));
    }
  }

  lemma TouchCounts(surfaces: map<SurfaceId, Tab>, surfaces': map<SurfaceId, Tab>, inUse: map<Profile, nat>)
    requires Alike(surfaces, surfaces') && CountsAgree(surfaces, inUse)
    ensures CountsAgree(surfaces', inUse)
  {
    SameHolders(surfaces, surfaces');
  }

  lemma SameHolders(surfaces: map<SurfaceId, Tab>, surfaces': map<SurfaceId, Tab>)
    requires surfaces'.Keys == surfaces.Keys
    requires forall id :: id in surfaces ==> surfaces'[id].profile == surfaces[id].profile
    ensures forall p :: Holders(surfaces', p) == Holders(surfaces, p)
  {
  }

  lemma SurfaceTouches(s: Tabs, id: SurfaceId, surface: Surface, n: Contents)
    requires id in s.surfaces && (surface.visible ==> s.surfaces[id].surface.visible)
    requires Advances(Some(s.surfaces[id].surface), Some(surface))
    ensures var s' := SetSurface(s, id, surface).(nextContents := n);
            Touches(s, s', id) && At(s', id) == At(s, id).(surface := Some(surface))
  {
  }

  lemma RecoveryTouches(s: Tabs, id: SurfaceId, r: Recovery, networks: set<SurfaceId>)
    requires id in s.recoveries || id in s.surfaces
    ensures var s' := SetRecovery(s, id, r).(networks := networks);
            Touches(s, s', id) && At(s', id) == At(s, id).(recovery := Some(r))
  {
  }

  lemma EndTouches(s: Tabs, id: SurfaceId)
    ensures var s' := EndLoop(s, id);
            Touches(s, s', id) && At(s', id) == At(s, id).(recovery := None, loops := Loops(s, id) - 1)
  {
  }

  lemma ReplaceAdvances(surface: Surface, contents: Contents, built: bool, added: bool)
    ensures Advances(Some(surface), Some(Replace(surface, contents, built, added)))
  {
  }

  lemma ReplacedTouches(s: Tabs, replaced: Tabs, r: Recovery, built: bool)
    requires r.target.id in s.surfaces && Touches(s, replaced, r.target.id)
    requires replaced.networks == s.networks
    ensures Touches(s, if built then SetRecovery(replaced, r.target.id, r.(stage := Replaced))
                       else EndLoop(replaced, r.target.id), r.target.id)
  {
    var id := r.target.id;
    if built {
      RecoveryTouches(replaced, id, r.(stage := Replaced), s.networks);
      TouchesTrans(s, replaced, SetRecovery(replaced, id, r.(stage := Replaced)), id);
    } else {
      EndTouches(replaced, id);
      TouchesTrans(s, replaced, EndLoop(replaced, id), id);
    }
  }

  function WithReplacedView(s: Tabs, id: SurfaceId, built: bool, added: bool): Tabs
    requires id in s.surfaces
  {
    SetSurface(s, id, Replace(s.surfaces[id].surface, s.nextContents, built, added)).(nextContents := s.nextContents + 1)
  }

  lemma ViewTouches(s: Tabs, id: SurfaceId, built: bool, added: bool)
    requires id in s.surfaces
    ensures Touches(s, WithReplacedView(s, id, built, added), id)
  {
    var surface := Replace(s.surfaces[id].surface, s.nextContents, built, added);
    assert WithReplacedView(s, id, built, added) == SetSurface(s, id, surface).(nextContents := s.nextContents + 1);
    ReplaceAdvances(s.surfaces[id].surface, s.nextContents, built, added);
    SurfaceTouches(s, id, surface, s.nextContents + 1);
  }

  lemma ReplaceOnlyTouches(s: Tabs, r: Recovery, built: bool, added: bool)
    requires r.target.id in s.recoveries || Current(s, r.target)
    ensures Touches(s, ReplaceTarget(s, r, built, added), r.target.id)
  {
    var id := r.target.id;
    if !Current(s, r.target) {
      RecoveryTouches(s, id, r.(stage := Returning), s.networks);
    } else {
      ViewTouches(s, id, built, added);
      ReplacedTouches(s, WithReplacedView(s, id, built, added), r, built);
    }
  }

  /** What a replacement makes of a slot. */
  function ReplacedSlot(z: Slot, r: Recovery, contents: Contents, built: bool, added: bool): Slot {
    if !StillShown(z.surface, r.target) then z.(recovery := Some(r.(stage := Returning)))
    else
      var replaced := z.(surface := Some(Replace(z.surface.value, contents, built, added)));
      if built then replaced.(recovery := Some(r.(stage := Replaced)))
      else replaced.(recovery := None, loops := z.loops - 1)
  }

  lemma ReplacedAt(s: Tabs, r: Recovery, built: bool, added: bool)
    ensures At(ReplaceTarget(s, r, built, added), r.target.id)
         == ReplacedSlot(At(s, r.target.id), r, s.nextContents, built, added)
  {
    var id := r.target.id;
    if Current(s, r.target) {
      var surface := Replace(s.surfaces[id].surface, s.nextContents, built, added);
      var replaced := SetSurface(s, id, surface).(nextContents := s.nextContents + 1);
      assert At(replaced, id) == At(s, id).(surface := Some(surface));
    }
  }

  lemma ReplacedSlotOk(id: SurfaceId, z: Slot, r: Recovery, contents: Contents, built: bool, added: bool)
    requires SlotOk(id, z.(recovery := Some(r))) && r.stage == Disposing
    ensures SlotOk(id, ReplacedSlot(z, r, contents, built, added))
  {
  }

  lemma ReplaceTouches(s: Tabs, r: Recovery, built: bool, added: bool)
    requires SlotOk(r.target.id, At(s, r.target.id).(recovery := Some(r))) && r.stage == Disposing
    requires r.target.id in s.recoveries || Current(s, r.target)
    ensures var s' := ReplaceTarget(s, r, built, added);
            Touches(s, s', r.target.id) && SlotOk(r.target.id, At(s', r.target.id))
  {
    ReplaceOnlyTouches(s, r, built, added);
    ReplacedAt(s, r, built, added);
    ReplacedSlotOk(r.target.id, At(s, r.target.id), r, s.nextContents, built, added);
  }

  lemma BeginTouches(s: Tabs, t: Target, built: bool, added: bool)
    requires SlotOk(t.id, At(s, t.id).(recovery := Some(Recovery(t, None, Disposing))))
    requires t.id in s.recoveries || Current(s, t)
    ensures var s' := BeginRecovery(s, t, built, added);
            Touches(s, s', t.id) && SlotOk(t.id, At(s', t.id))
  {
    var r := Recovery(t, None, Disposing);
    if !Current(s, t) { RecoveryTouches(s, t.id, r.(stage := Returning), s.networks); }
    else if t.id in s.networks { RecoveryTouches(s, t.id, r, s.networks - {t.id}); }
    else { ReplaceTouches(s, r, built, added); }
  }

  lemma ScheduleTouches(s: Tabs, t: Target, built: bool, added: bool, before: bool)
    requires Current(s, t) && s.surfaces[t.id].surface.crashed && !Settling(s, t.id)
    requires SlotOk(t.id, At(s, t.id).(surface := Some(s.surfaces[t.id].surface.(crashed := before))))
    ensures var s' := Schedule(s, t, built, added);
            Touches(s, s', t.id) && SlotOk(t.id, At(s', t.id))
  {
    if t.id !in s.recoveries {
      var started := s.(loops := s.loops[t.id := Loops(s, t.id) + 1]);
      BeginTouches(started, t, built, added);
      TouchesTrans(s, started, Schedule(s, t, built, added), t.id);
    }
  }

  lemma CrashTouches(s: Tabs, t: Target, built: bool, added: bool)
    requires Current(s, t) && !Settling(s, t.id) && SlotOk(t.id, At(s, t.id))
    ensures var s' := Crash(s, t, built, added);
            Touches(s, s', t.id) && SlotOk(t.id, At(s', t.id))
  {
    var marked := SetSurface(s, t.id, s.surfaces[t.id].surface.(crashed := true));
    SurfaceTouches(s, t.id, s.surfaces[t.id].surface.(crashed := true), s.nextContents);
    ScheduleTouches(marked, t, built, added, s.surfaces[t.id].surface.crashed);
    TouchesTrans(s, marked, Schedule(marked, t, built, added), t.id);
  }

  lemma TouchesTrans(s: Tabs, m: Tabs, s': Tabs, id: SurfaceId)
    requires Touches(s, m, id) && Touches(m, s', id)
    ensures Touches(s, s', id)
  {
    forall j | j != id ensures At(s', j) == At(s, j) {
      assert At(s', j) == At(m, j);
    }
  }

  lemma ReplacedResumes(s: Tabs, id: SurfaceId, built: bool, added: bool, adapted: bool, network: bool)
    requires id in s.recoveries && SlotOk(id, At(s, id)) && s.recoveries[id].stage == Replaced
    ensures var s' := Resume(s, id, built, added, adapted, network);
            Touches(s, s', id) && SlotOk(id, At(s', id))
  {
    if !adapted || id !in s.surfaces || s.surfaces[id].surface.view.None? {
      EndTouches(s, id);
    } else {
      RecoveryTouches(s, id, s.recoveries[id].(stage := Returning), if network then s.networks + {id} else s.networks);
    }
  }

  lemma ReturningResumes(s: Tabs, id: SurfaceId, built: bool, added: bool, adapted: bool, network: bool)
    requires id in s.recoveries && SlotOk(id, At(s, id)) && s.recoveries[id].stage == Returning
    ensures var s' := Resume(s, id, built, added, adapted, network);
            Touches(s, s', id) && SlotOk(id, At(s', id))
  {
    if s.recoveries[id].pending.Some? {
      BeginTouches(s, s.recoveries[id].pending.value, built, added);
    } else {
      EndTouches(s, id);
    }
  }

  lemma ResumeTouches(s: Tabs, id: SurfaceId, built: bool, added: bool, adapted: bool, network: bool)
    requires id in s.recoveries && SlotOk(id, At(s, id))
    ensures var s' := Resume(s, id, built, added, adapted, network);
            Touches(s, s', id) && SlotOk(id, At(s', id))
  {
    match s.recoveries[id].stage
    case Disposing => ReplaceTouches(s, s.recoveries[id], built, added);
    case Replaced => ReplacedResumes(s, id, built, added, adapted, network);
    case Returning => ReturningResumes(s, id, built, added, adapted, network);
  }

  // ---- steps that move the indexes ----

  lemma CreateSlots(s: Tabs, id: SurfaceId, owner: Owner, profile: Profile, network: bool)
    requires IndexesAgree(s) && id !in s.usedIds && forall j :: SlotOk(j, At(s, j))
    ensures var s' := Create(s, id, owner, profile, network); forall j :: SlotOk(j, At(s', j))
  {
    var s' := Create(s, id, owner, profile, network);
    forall j ensures SlotOk(j, At(s', j)) {
      assert SlotOk(j, At(s, j));
    }
  }

  lemma CreateKeeps(s: Tabs, id: SurfaceId, owner: Owner, profile: Profile, network: bool)
    requires Inv(s)
    ensures Inv(Create(s, id, owner, profile, network)) && Follows(s, Create(s, id, owner, profile, network))
  {
    if id !in s.usedIds {
      var s' := Create(s, id, owner, profile, network);
      CreateSlots(s, id, owner, profile, network);
      CreateCounts(s.surfaces, s.inUse, id, s'.surfaces[id]);
      CreateVisible(s.surfaces, id, s'.surfaces[id]);
      CreateIndexes(s, id, owner, profile, network);
    } else {
      SelfFollows(s);
    }
  }

  lemma CreateIndexes(s: Tabs, id: SurfaceId, owner: Owner, profile: Profile, network: bool)
    requires IndexesAgree(s) && id !in s.usedIds
    ensures IndexesAgree(Create(s, id, owner, profile, network))
  {
  }

  lemma CreateVisible(surfaces: map<SurfaceId, Tab>, id: SurfaceId, tab: Tab)
    requires OneVisible(surfaces) && Ok(tab.surface) && !tab.surface.visible && !tab.surface.closed
    ensures OneVisible(surfaces[id := tab])
  {
    var surfaces' := surfaces[id := tab];
    forall j | IsVisible(surfaces', j) ensures j != id && IsVisible(surfaces, j) {}
    forall j | j in surfaces' ensures Ok(surfaces'[j].surface) && !surfaces'[j].surface.closed {}
    assert forall i, j :: IsVisible(surfaces', i) && IsVisible(surfaces', j) ==> i == j;
  }

  lemma CreateCounts(surfaces: map<SurfaceId, Tab>, inUse: map<Profile, nat>, id: SurfaceId, tab: Tab)
    requires CountsAgree(surfaces, inUse) && id !in surfaces
    ensures CountsAgree(surfaces[id := tab], MarkInUse(inUse, tab.profile))
  {
    var surfaces', inUse' := surfaces[id := tab], MarkInUse(inUse, tab.profile);
    forall p | p != Isolated ensures Count(inUse', p) == |Holders(surfaces', p)| {
      if p == tab.profile {
        assert Holders(surfaces', p) == Holders(surfaces, p) + {id};
      } else {
        assert Holders(surfaces', p) == Holders(surfaces, p);
      }
    }
  }

  lemma RemoveCounts(surfaces: map<SurfaceId, Tab>, inUse: map<Profile, nat>, id: SurfaceId)
    requires CountsAgree(surfaces, inUse) && id in surfaces
    ensures CountsAgree(surfaces - {id}, Release(inUse, surfaces[id].profile))
  {
    var surfaces', inUse' := surfaces - {id}, Release(inUse, surfaces[id].profile);
    forall p | p != Isolated ensures Count(inUse', p) == |Holders(surfaces', p)| {
      if p == surfaces[id].profile {
        assert id in Holders(surfaces, p);
        assert Holders(surfaces', p) == Holders(surfaces, p) - {id};
      } else {
        assert Holders(surfaces', p) == Holders(surfaces, p);
      }
    }
  }

  lemma WithoutDistinct(ids: seq<SurfaceId>, id: SurfaceId)
    requires Distinct(ids)
    ensures Distinct(Without(ids, id)) && id !in Without(ids, id)
  {
    if ids != [] && ids[0] != id {
      WithoutDistinct(ids[1..], id);
      var r := Without(ids[1..], id);
      assert Without(ids, id) == [ids[0]] + r;
      forall i | 0 <= i < |r| ensures r[i] != ids[0] {
        assert r[i] in ids[1..];
      }
    }
  }

  lemma ReactivatedOwned(s: Tabs, owner: Owner, gone: SurfaceId)
    requires forall o :: o in s.active && (o != owner || s.active[o] != gone) ==>
                           s.active[o] in s.owners && s.owners[s.active[o]] == o
    ensures forall o :: o in Reactivated(s, owner, gone) ==>
                          Reactivated(s, owner, gone)[o] in s.owners && s.owners[Reactivated(s, owner, gone)[o]] == o
  {
  }

  lemma RemoveIndexes(s: Tabs, id: SurfaceId)
    requires IndexesAgree(s) && id in s.surfaces
    ensures IndexesAgree(Remove(s, id))
  {
    WithoutDistinct(s.ordered, id);
    var left := s.(surfaces := s.surfaces - {id}, owners := s.owners - {id}, ordered := Without(s.ordered, id),
                   inUse := Release(s.inUse, s.surfaces[id].profile), networks := s.networks - {id});
    ReactivatedOwned(left, s.owners[id], id);
  }

  lemma RemoveVisible(surfaces: map<SurfaceId, Tab>, id: SurfaceId)
    requires OneVisible(surfaces)
    ensures OneVisible(surfaces - {id})
  {
    assert forall j :: IsVisible(surfaces - {id}, j) ==> IsVisible(surfaces, j);
  }

  lemma RemoveKeeps(s: Tabs, id: SurfaceId)
    requires Inv(s)
    ensures Inv(Remove(s, id)) && Follows(s, Remove(s, id))
  {
    if id in s.surfaces {
      var s' := Remove(s, id);
      forall j ensures SlotOk(j, At(s', j)) {
        assert SlotOk(j, At(s, j));
      }
      RemoveCounts(s.surfaces, s.inUse, id);
      RemoveIndexes(s, id);
      RemoveVisible(s.surfaces, id);
    } else {
      SelfFollows(s);
    }
  }

  lemma FrontedVisible(surfaces: map<SurfaceId, Tab>, id: SurfaceId, added: bool)
    requires OneVisible(surfaces)
    ensures OneVisible(Fronted(surfaces, id, added))
  {
    assert forall j :: IsVisible(Fronted(surfaces, id, added), j) ==> j == id;
  }

  lemma FrontedSlot(s: Tabs, id: SurfaceId, owner: Owner, added: bool, j: SurfaceId)
    requires Owns(s, owner, id) && SlotOk(j, At(s, j))
    ensures SlotOk(j, At(Activate(s, id, owner, added), j))
    ensures Advances(At(s, j).surface, At(Activate(s, id, owner, added), j).surface)
  {
  }

  lemma ActivateKeeps(s: Tabs, id: SurfaceId, owner: Owner, added: bool)
    requires Inv(s)
    ensures Inv(Activate(s, id, owner, added)) && Follows(s, Activate(s, id, owner, added))
  {
    if Owns(s, owner, id) {
      var s' := Activate(s, id, owner, added);
      forall j ensures SlotOk(j, At(s', j)) && Advances(At(s, j).surface, At(s', j).surface) {
        assert SlotOk(j, At(s, j));
        FrontedSlot(s, id, owner, added, j);
      }
      SameHolders(s.surfaces, s'.surfaces);
      FrontedVisible(s.surfaces, id, added);
    } else {
      SelfFollows(s);
    }
  }

  /** A surface may lose its view, be hidden, or get a new view when it has none. */
  lemma SurfaceSlots(id: SurfaceId, z: Slot, contents: Contents, added: bool)
    requires SlotOk(id, z) && z.surface.Some?
    ensures SlotOk(id, z.(surface := Some(SetVisible(z.surface.value, false, false))))
    ensures !z.surface.value.visible ==> SlotOk(id, z.(surface := Some(CloseView(z.surface.value))))
    ensures z.surface.value.view.None? ==> SlotOk(id, z.(surface := Some(CreateView(z.surface.value, contents, added))))
  {
  }

  lemma SurfaceKeeps(s: Tabs, id: SurfaceId, surface: Surface, n: Contents)
    requires Inv(s) && id in s.surfaces && (surface.visible ==> s.surfaces[id].surface.visible)
    requires Advances(Some(s.surfaces[id].surface), Some(surface)) && SlotOk(id, At(s, id).(surface := Some(surface)))
    ensures var s' := SetSurface(s, id, surface).(nextContents := n); Inv(s') && Follows(s, s')
  {
    SurfaceTouches(s, id, surface, n);
    TouchKeeps(s, SetSurface(s, id, surface).(nextContents := n), id);
  }

  lemma HideKeeps(s: Tabs, id: SurfaceId)
    requires Inv(s)
    ensures Inv(Hide(s, id)) && Follows(s, Hide(s, id))
  {
    if id in s.surfaces {
      assert SlotOk(id, At(s, id));
      SurfaceSlots(id, At(s, id), 0, false);
      SurfaceKeeps(s, id, SetVisible(s.surfaces[id].surface, false, false), s.nextContents);
    } else {
      SelfFollows(s);
    }
  }

  lemma DiscardKeeps(s: Tabs, id: SurfaceId)
    requires Inv(s)
    ensures Inv(Discard(s, id)) && Follows(s, Discard(s, id))
  {
    if id in s.surfaces && !s.surfaces[id].surface.visible {
      assert SlotOk(id, At(s, id));
      SurfaceSlots(id, At(s, id), 0, false);
      SurfaceKeeps(s, id, CloseView(s.surfaces[id].surface), s.nextContents);
    } else {
      SelfFollows(s);
    }
  }

  lemma CreateViewAdvances(surface: Surface, contents: Contents, added: bool)
    ensures Advances(Some(surface), Some(CreateView(surface, contents, added)))
    ensures CreateView(surface, contents, added).visible == surface.visible
  {
  }

  lemma RestoreKeeps(s: Tabs, id: SurfaceId, added: bool)
    requires Inv(s)
    ensures Inv(Restore(s, id, added)) && Follows(s, Restore(s, id, added))
  {
    if id in s.surfaces && s.surfaces[id].surface.view.None? {
      var surface := CreateView(s.surfaces[id].surface, s.nextContents, added);
      assert Restore(s, id, added) == SetSurface(s, id, surface).(nextContents := s.nextContents + 1);
      assert SlotOk(id, At(s, id));
      SurfaceSlots(id, At(s, id), s.nextContents, added);
      CreateViewAdvances(s.surfaces[id].surface, s.nextContents, added);
      SurfaceKeeps(s, id, surface, s.nextContents + 1);
    } else {
      SelfFollows(s);
    }
  }

  lemma CrashKeeps(s: Tabs, t: Target, built: bool, added: bool)
    requires Inv(s) && !Settling(s, t.id)
    ensures Inv(Crash(s, t, built, added)) && Follows(s, Crash(s, t, built, added))
  {
    if Current(s, t) {
      assert SlotOk(t.id, At(s, t.id));
      CrashTouches(s, t, built, added);
      TouchKeeps(s, Crash(s, t, built, added), t.id);
    }
  }

  lemma ResumeKeeps(s: Tabs, id: SurfaceId, built: bool, added: bool, adapted: bool, network: bool)
    requires Inv(s)
    ensures Inv(Resume(s, id, built, added, adapted, network)) && Follows(s, Resume(s, id, built, added, adapted, network))
  {
    if id in s.recoveries {
      assert SlotOk(id, At(s, id));
      ResumeTouches(s, id, built, added, adapted, network);
      TouchKeeps(s, Resume(s, id, built, added, adapted, network), id);
    }
  }

  lemma NetworkKeeps(s: Tabs, id: SurfaceId)
    requires Inv(s)
    ensures Inv(UseNetwork(s, id)) && Follows(s, UseNetwork(s, id))
  {
    forall j ensures SlotOk(j, At(UseNetwork(s, id), j)) {
      assert At(UseNetwork(s, id), j) == At(s, j);
    }
  }

  lemma NextKeepsInv(s: Tabs, e: Event)
    requires Inv(s)
    ensures Inv(Next(s, e)) && Follows(s, Next(s, e))
  {
    match e
    case Created(id, owner, profile, network) => CreateKeeps(s, id, owner, profile, network);
    case Activated(id, owner, added) => ActivateKeeps(s, id, owner, added);
    case Hidden(id) => HideKeeps(s, id);
    case Closed(id) => RemoveKeeps(s, id);
    case Discarded(id) => DiscardKeeps(s, id);
    case Restored(id, added) => RestoreKeeps(s, id, added);
    case NetworkUsed(id) => NetworkKeeps(s, id);
    case Crashed(t, built, added) => if Settling(s, t.id) { SelfFollows(s); } else { CrashKeeps(s, t, built, added); }
    case Resumed(id, built, added, adapted, network) => ResumeKeeps(s, id, built, added, adapted, network);
  }

  lemma {:induction false} RunKeepsInv(s: Tabs, events: seq<Event>)
    requires Inv(s)
    ensures Inv(Run(s, events)) && Follows(s, Run(s, events))
    decreases |events|
  {
    if events != [] {
      var next := Next(s, events[0]);
      NextKeepsInv(s, events[0]);
      RunKeepsInv(next, events[1..]);
      FollowsTrans(s, next, Run(next, events[1..]));
    } else {
      SelfFollows(s);
    }
  }

  lemma SelfFollows(s: Tabs)
    ensures Follows(s, s)
  {
  }

  lemma ReachableInv(s: Tabs)
    requires Reachable(s)
    ensures Inv(s)
  {
    assert forall p :: Holders(EMPTY.surfaces, p) == {};
    var events :| Run(EMPTY, events) == s;
    RunKeepsInv(EMPTY, events);
  }

  lemma LeadsFollows(s: Tabs, s': Tabs)
    requires Inv(s) && Leads(s, s')
    ensures Inv(s') && Follows(s, s')
  {
    var events :| Run(s, events) == s';
    RunKeepsInv(s, events);
  }
}
