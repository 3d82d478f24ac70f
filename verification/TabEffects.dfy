/** What each request to the browser runtime does, in every state that some run reaches. */
module TabEffects {
  import opened Wrappers
  import opened BrowserSurfaces
  import opened TabModel
  import opened TabInvariants
  import opened TabTheorems

  /** The two tabs hold the same view, in the same generation, of the same profile. */
  predicate SameView(a: Tab, b: Tab) {
    && b.profile == a.profile && b.surface.view == a.surface.view && b.surface.generation == a.surface.generation
    && b.surface.crashed == a.surface.crashed && b.surface.closed == a.surface.closed
  }

  /** Nothing but the tab of one surface differs. */
  ghost predicate OnlyTab(s: Tabs, s': Tabs, id: SurfaceId) {
    id in s.surfaces && id in s'.surfaces && s' == s.(surfaces := s.surfaces[id := s'.surfaces[id]])
  }

  lemma SlotHolds(s: Tabs, id: SurfaceId)
    requires Reachable(s)
    ensures SlotOk(id, At(s, id))
  {
    ReachableInv(s);
  }

  lemma TabsAreOpen(s: Tabs)
    requires Reachable(s)
    ensures forall id :: id in s.surfaces ==> Ok(s.surfaces[id].surface) && !s.surfaces[id].surface.closed
  {
    forall id | id in s.surfaces ensures Ok(s.surfaces[id].surface) && !s.surfaces[id].surface.closed { SlotHolds(s, id); }
  }

  // ---- visibility ----

  /**
   Activating a tab shows it and hides every other one, of all owners. A view is attached when it was or when the window
   takes it. No view, generation or profile changes, and the owner's active surface is the requested one.
   */
  lemma ActivatingShowsTheTab(s: Tabs, id: SurfaceId, owner: Owner, added: bool)
    requires Reachable(s) && Owns(s, owner, id)
    ensures var s' := Next(s, Activated(id, owner, added));
            && s'.surfaces.Keys == s.surfaces.Keys
            && s'.surfaces[id].surface.visible
            && (s'.surfaces[id].surface.attached <==>
                  s.surfaces[id].surface.attached || (added && s.surfaces[id].surface.view.Some?))
            && (forall j :: j in s.surfaces && j != id ==>
                  !s'.surfaces[j].surface.visible && !s'.surfaces[j].surface.attached)
            && (forall j :: j in s.surfaces ==> SameView(s.surfaces[j], s'.surfaces[j]))
            && s'.active == s.active[owner := id] && ActiveSurface(s', owner) == Some(id)
            && s' == s.(surfaces := s'.surfaces, active := s'.active)
  {
    TabsAreOpen(s);
  }

  /** A surface that is not the caller's is left alone, with all others. */
  lemma OthersTabIsNotActivated(s: Tabs, id: SurfaceId, owner: Owner, added: bool)
    requires !Owns(s, owner, id)
    ensures Next(s, Activated(id, owner, added)) == s
  {
  }

  lemma HidingTakesTheTabOff(s: Tabs, id: SurfaceId)
    requires Reachable(s) && id in s.surfaces
    ensures var s' := Next(s, Hidden(id));
            && OnlyTab(s, s', id) && SameView(s.surfaces[id], s'.surfaces[id])
            && !s'.surfaces[id].surface.visible && !s'.surfaces[id].surface.attached
  {
    SlotHolds(s, id);
  }

  // ---- creating and closing ----

  /**
   A new tab is open, hidden and not attached, shows a view of its own in generation 1, and is the newest of its owner.
   Every other tab stays as it is.
   */
  lemma CreatingAddsAHiddenTab(s: Tabs, id: SurfaceId, owner: Owner, profile: Profile, network: bool)
    requires Reachable(s) && id !in s.usedIds
    ensures var s' := Next(s, Created(id, owner, profile, network));
            && s'.surfaces == s.surfaces[id := Tab(Surface(false, Some(s.nextContents), false, false, 1, false), profile)]
            && s'.owners == s.owners[id := owner] && s'.ordered == s.ordered + [id]
            && s'.active == s.active && s'.recoveries == s.recoveries && s'.loops == s.loops
            && s'.networks == s.networks + (if network then {id} else {})
            && s'.nextContents == s.nextContents + 1 && s'.usedIds == s.usedIds + {id}
            && (owner !in s.active ==> ActiveSurface(s', owner) == Some(id))
  {
    ReachableInv(s);
    var s' := Next(s, Created(id, owner, profile, network));
    assert s'.ordered[..|s.ordered|] == s.ordered;
  }

  /** The tabs of an owner, oldest first. */
  function OwnedOf(ordered: seq<SurfaceId>, owners: map<SurfaceId, Owner>, owner: Owner): seq<SurfaceId> {
    if ordered == [] then []
    else
      var last := ordered[|ordered| - 1];
      OwnedOf(ordered[..|ordered| - 1], owners, owner) + (if last in owners && owners[last] == owner then [last] else [])
  }

  lemma {:induction false} LastOwnedIsNewest(ordered: seq<SurfaceId>, owners: map<SurfaceId, Owner>, owner: Owner)
    ensures var owned := OwnedOf(ordered, owners, owner);
            LastOwned(ordered, owners, owner) == if owned == [] then None else Some(owned[|owned| - 1])
  {
    if ordered != [] { LastOwnedIsNewest(ordered[..|ordered| - 1], owners, owner); }
  }

  /** The active surface of an owner is the one that was made active last, and without one the newest. */
  lemma ActiveSurfaceIs(s: Tabs, owner: Owner)
    requires Reachable(s)
    ensures var owned := OwnedOf(s.ordered, s.owners, owner);
            ActiveSurface(s, owner) ==
            if owner in s.active then Some(s.active[owner]) else if owned == [] then None else Some(owned[|owned| - 1])
  {
    IndexesOf(s, 0);
    LastOwnedIsNewest(s.ordered, s.owners, owner);
  }

  lemma {:induction false} WithoutAt(ids: seq<SurfaceId>, at: nat)
    requires at < |ids| && Distinct(ids)
    ensures Without(ids, ids[at]) == ids[..at] + ids[at + 1..] && ids[at] !in Without(ids, ids[at])
  {
    if at > 0 {
      WithoutAt(ids[1..], at - 1);
      assert ids[..at] == [ids[0]] + ids[1..][..at - 1];
    }
  }

  /** A list without its entry at some place. */
  ghost predicate Spliced(ids: seq<SurfaceId>, id: SurfaceId, ids': seq<SurfaceId>) {
    exists at :: 0 <= at < |ids| && ids[at] == id && ids' == ids[..at] + ids[at + 1..]
  }

  lemma WithoutSplices(ids: seq<SurfaceId>, id: SurfaceId)
    requires Distinct(ids) && id in ids
    ensures Spliced(ids, id, Without(ids, id)) && id !in Without(ids, id)
  {
    var at :| 0 <= at < |ids| && ids[at] == id;
    WithoutAt(ids, at);
  }

  lemma IndexesOf(s: Tabs, id: SurfaceId)
    requires Reachable(s)
    ensures (id in s.surfaces <==> id in s.owners) && (id in s.surfaces ==> id in s.ordered) && Distinct(s.ordered)
    ensures forall o :: o in s.active ==> s.active[o] in s.owners && s.owners[s.active[o]] == o
  {
    ReachableInv(s);
  }

  /** A closed tab is in no index, and every other tab stays as it is and keeps its place. */
  lemma ClosingForgetsTheTab(s: Tabs, id: SurfaceId)
    requires Reachable(s) && id in s.surfaces
    ensures var s' := Next(s, Closed(id));
            && s'.surfaces == s.surfaces - {id} && s'.owners == s.owners - {id} && s'.networks == s.networks - {id}
            && Spliced(s.ordered, id, s'.ordered) && id !in s'.ordered
            && s'.recoveries == s.recoveries && s'.loops == s.loops && s'.usedIds == s.usedIds
            && forall o :: o in s.active && s.active[o] != id ==> o in s'.active && s'.active[o] == s.active[o]
  {
    IndexesOf(s, id);
    WithoutSplices(s.ordered, id);
  }

  /** When the active tab is closed, the owner's newest remaining tab is the active one; another active tab stays. */
  lemma ClosingActivatesTheNewest(s: Tabs, id: SurfaceId)
    requires Reachable(s) && id in s.surfaces && id in s.owners
    ensures var s' := Next(s, Closed(id));
            var owner := s.owners[id];
            var left := OwnedOf(s'.ordered, s'.owners, owner);
            && (owner in s.active && s.active[owner] != id ==> ActiveSurface(s', owner) == Some(s.active[owner]))
            && (owner !in s.active || s.active[owner] == id ==>
                  ActiveSurface(s', owner) == if left == [] then None else Some(left[|left| - 1]))
  {
    IndexesOf(s, id);
    var s' := Next(s, Closed(id));
    LastOwnedIsNewest(s'.ordered, s'.owners, s.owners[id]);
  }

  // ---- views ----

  /** A hidden tab gives up its view and nothing else; a visible one is left alone. */
  lemma DiscardingDropsAHiddenView(s: Tabs, id: SurfaceId)
    requires Reachable(s) && id in s.surfaces
    ensures var s' := Next(s, Discarded(id));
            var tab := s.surfaces[id];
            if tab.surface.visible then s' == s
            else OnlyTab(s, s', id) && s'.surfaces[id] == tab.(surface := Surface(false, None, false, false, tab.surface.generation, false))
  {
    SlotHolds(s, id);
  }

  /** A tab without a view gets a new one of the next generation, attached if it is visible and the window takes it. */
  lemma RestoringOpensAView(s: Tabs, id: SurfaceId, added: bool)
    requires Reachable(s) && id in s.surfaces
    ensures var s' := Next(s, Restored(id, added));
            var tab := s.surfaces[id];
            if tab.surface.view.Some? then s' == s
            else
              && s'.surfaces[id] == tab.(surface := Surface(false, Some(s.nextContents), tab.surface.visible && added,
                                                            tab.surface.visible, tab.surface.generation + 1, false))
              && s'.nextContents == s.nextContents + 1 && OnlyTab(s, s'.(nextContents := s.nextContents), id)
  {
    SlotHolds(s, id);
  }

  /** A network call gives the surface a network controller and changes nothing else. */
  lemma NetworkIsSetUp(s: Tabs, id: SurfaceId)
    requires id in s.surfaces
    ensures Next(s, NetworkUsed(id)) == s.(networks := s.networks + {id})
  {
  }

  // ---- crashes ----

  /** What an exchange leaves: a new view of the next generation, as visible as before. */
  predicate Exchanged(s: Tabs, s': Tabs, id: SurfaceId, added: bool) {
    && id in s.surfaces && id in s'.surfaces
    && var was, now := s.surfaces[id], s'.surfaces[id];
       && now == was.(surface := Surface(false, Some(s.nextContents), was.surface.visible && added, was.surface.visible,
                                         was.surface.generation + 1, false))
       && s'.nextContents == s.nextContents + 1
       && forall j :: j in s.surfaces && j != id ==> j in s'.surfaces && s'.surfaces[j] == s.surfaces[j]
  }

  lemma TargetIsExchanged(s: Tabs, r: Recovery, added: bool)
    requires Current(s, r.target) && Ok(s.surfaces[r.target.id].surface)
    ensures var s' := ReplaceTarget(s, r, true, added);
            && Exchanged(s, s', r.target.id, added) && s'.networks == s.networks
            && s'.recoveries == s.recoveries[r.target.id := r.(stage := Replaced)]
  {
  }

  /** The crash of a shown view without a network controller and with no loop under way exchanges the view at once. */
  lemma CrashExchangesTheView(s: Tabs, id: SurfaceId, added: bool)
    requires Reachable(s) && id in s.surfaces && s.surfaces[id].surface.view.Some? && id !in s.recoveries && id !in s.networks
    ensures var t := Shown(s, id);
            var s' := Next(s, Crashed(t, true, added));
            && Exchanged(s, s', id, added) && s'.networks == s.networks
            && id in s'.recoveries && s'.recoveries[id] == Recovery(t, None, Replaced)
  {
    SlotHolds(s, id);
    var t := Shown(s, id);
    var m := SetSurface(s, t.id, s.surfaces[t.id].surface.(crashed := true));
    var n := m.(loops := m.loops[t.id := Loops(m, t.id) + 1]);
    assert Current(s, t) && Current(m, t) && Current(n, t);
    TargetIsExchanged(n, Recovery(t, None, Disposing), added);
  }

  /** With a network controller that goes first, and the view stays, marked as crashed. */
  lemma CrashEndsTheNetworkFirst(s: Tabs, id: SurfaceId, built: bool, added: bool)
    requires Reachable(s) && id in s.surfaces && s.surfaces[id].surface.view.Some? && id !in s.recoveries && id in s.networks
    ensures var t := Shown(s, id);
            var s' := Next(s, Crashed(t, built, added));
            && s'.networks == s.networks - {id} && s'.recoveries == s.recoveries[id := Recovery(t, None, Disposing)]
            && s'.surfaces == s.surfaces[id := s.surfaces[id].(surface := s.surfaces[id].surface.(crashed := true))]
  {
    SlotHolds(s, id);
  }

  /** A crash while the network controller of an earlier view goes away is remembered. */
  lemma CrashDuringARecoveryIsRemembered(s: Tabs, id: SurfaceId, built: bool, added: bool)
    requires Reachable(s) && id in s.surfaces && s.surfaces[id].surface.view.Some? && id in s.recoveries
    requires s.recoveries[id].stage == Disposing && s.recoveries[id].target != Shown(s, id)
    ensures var s' := Next(s, Crashed(Shown(s, id), built, added));
            s'.recoveries[id] == s.recoveries[id].(pending := Some(Shown(s, id))) && s'.surfaces[id].surface.crashed
  {
    SlotHolds(s, id);
  }

  /** A report for a view that is not shown changes nothing. */
  lemma LateReportIsIgnored(s: Tabs, t: Target, built: bool, added: bool)
    requires t.id in s.surfaces ==> s.surfaces[t.id].surface.view != Some(t.contents) || s.surfaces[t.id].surface.generation != t.generation
    ensures Next(s, Crashed(t, built, added)) == s
  {
  }

  /** Once the network controller is gone, the crashed view is exchanged and the loop waits for the new view. */
  lemma RecoveryExchangesItsTarget(s: Tabs, id: SurfaceId, added: bool, adapted: bool, network: bool)
    requires Reachable(s) && id in s.surfaces && s.surfaces[id].surface.view.Some?
    requires id in s.recoveries && s.recoveries[id].stage == Disposing && s.recoveries[id].target == Shown(s, id)
    ensures var s' := Next(s, Resumed(id, true, added, adapted, network));
            Exchanged(s, s', id, added) && id in s'.recoveries && s'.recoveries[id] == s.recoveries[id].(stage := Replaced)
  {
    SlotHolds(s, id);
  }

  /** When no native view can be built, the surface is left without one and the loop ends. */
  lemma FailedExchangeLeavesNoView(s: Tabs, id: SurfaceId, added: bool, adapted: bool, network: bool)
    requires Reachable(s) && id in s.surfaces && s.surfaces[id].surface.view.Some?
    requires id in s.recoveries && s.recoveries[id].stage == Disposing && s.recoveries[id].target == Shown(s, id)
    ensures var s' := Next(s, Resumed(id, false, added, adapted, network));
            var tab := s.surfaces[id];
            && s'.surfaces == s.surfaces[id := tab.(surface := Surface(false, None, false, tab.surface.visible, tab.surface.generation, false))]
            && id !in s'.recoveries
  {
    SlotHolds(s, id);
  }

  // ---- the rest of a recovery ----

  /** With a live view that could be read, the surface gets a network controller if it had one; else the loop ends. */
  lemma ExchangedViewIsAdapted(s: Tabs, id: SurfaceId, built: bool, added: bool, adapted: bool, network: bool)
    requires Reachable(s) && id in s.recoveries && s.recoveries[id].stage == Replaced
    ensures var s' := Next(s, Resumed(id, built, added, adapted, network));
            && s' == s.(recoveries := s'.recoveries, loops := s'.loops, networks := s'.networks)
            && if adapted && id in s.surfaces && s.surfaces[id].surface.view.Some?
               then && s'.recoveries == s.recoveries[id := s.recoveries[id].(stage := Returning)] && s'.loops == s.loops
                    && s'.networks == (if network then s.networks + {id} else s.networks)
               else s'.recoveries == s.recoveries - {id} && Loops(s', id) == 0 && s'.networks == s.networks
  {
    SlotHolds(s, id);
  }

  /** A loop with nothing pending ends, and nothing else changes. */
  lemma LoopEnds(s: Tabs, id: SurfaceId, built: bool, added: bool, adapted: bool, network: bool)
    requires Reachable(s) && id in s.recoveries && s.recoveries[id].stage == Returning && s.recoveries[id].pending.None?
    ensures var s' := Next(s, Resumed(id, built, added, adapted, network));
            s' == s.(recoveries := s.recoveries - {id}, loops := s'.loops) && Loops(s', id) == 0
  {
    SlotHolds(s, id);
  }

  /** A loop whose target, or pending target, is no longer shown leaves all views alone. */
  lemma GoneTargetIsLeft(s: Tabs, id: SurfaceId, built: bool, added: bool, adapted: bool, network: bool)
    requires Reachable(s) && id in s.recoveries
    ensures var r := s.recoveries[id];
            var s' := Next(s, Resumed(id, built, added, adapted, network));
            && (r.stage == Disposing && !Current(s, r.target) ==>
                  s' == s.(recoveries := s.recoveries[id := r.(stage := Returning)]))
            && (r.stage == Returning && r.pending.Some? && !Current(s, r.pending.value) ==>
                  s' == s.(recoveries := s.recoveries[id := Recovery(r.pending.value, None, Returning)]))
  {
    SlotHolds(s, id);
  }

  /** A surface that does not exist is not looked for. */
  lemma UnknownTabIsIgnored(s: Tabs, id: SurfaceId, added: bool)
    requires id !in s.surfaces
    ensures Next(s, Hidden(id)) == s && Next(s, Closed(id)) == s && Next(s, Discarded(id)) == s
    ensures Next(s, Restored(id, added)) == s && Next(s, NetworkUsed(id)) == s
  {
  }

  // ---- every crashed view is exchanged ----

  /** The loop of a surface goes on so many times, and every native call succeeds. */
  function Resumes(s: Tabs, id: SurfaceId, added: bool, n: nat): Tabs
    decreases n
  {
    if n == 0 then s else Resumes(Next(s, Resumed(id, true, added, true, false)), id, added, n - 1)
  }

  lemma ReachableNext(s: Tabs, e: Event)
    requires Reachable(s)
    ensures Reachable(Next(s, e))
  {
    var events :| Run(EMPTY, events) == s;
    RunAppend(EMPTY, events, e);
    assert Run(EMPTY, events + [e]) == Next(s, e);
  }

  lemma {:induction false} RunAppend(s: Tabs, events: seq<Event>, e: Event)
    ensures Run(s, events + [e]) == Next(Run(s, events), e)
    decreases |events|
  {
    if events == [] {
      assert [e][1..] == [] && events + [e] == [e];
      assert Run(Next(s, e), []) == Next(s, e);
    } else {
      assert (events + [e])[1..] == events[1..] + [e];
      RunAppend(Next(s, events[0]), events[1..], e);
    }
  }

  /** The loop works on the view that is shown. */
  predicate AtWork(s: Tabs, id: SurfaceId) {
    && id in s.surfaces && s.surfaces[id].surface.view.Some?
    && id in s.recoveries && s.recoveries[id].stage == Disposing && s.recoveries[id].target == Shown(s, id)
  }

  /** The loop is about to take the view that is shown. */
  predicate AboutTo(s: Tabs, id: SurfaceId) {
    && id in s.surfaces && s.surfaces[id].surface.view.Some?
    && id in s.recoveries && s.recoveries[id].stage == Returning && s.recoveries[id].pending == Some(Shown(s, id))
  }

  lemma CrashedIsWorkedOn(s: Tabs, id: SurfaceId)
    requires Reachable(s) && id in s.surfaces && s.surfaces[id].surface.crashed
    ensures s.surfaces[id].surface.view.Some? && id in s.recoveries
    ensures AtWork(s, id) || s.recoveries[id].pending == Some(Shown(s, id))
    ensures s.recoveries[id].stage != Replaced
  {
    SlotHolds(s, id);
  }

  lemma PendingIsTakenUp(s: Tabs, id: SurfaceId, added: bool)
    requires Reachable(s) && AboutTo(s, id)
    ensures var s' := Next(s, Resumed(id, true, added, true, false));
            Exchanged(s, s', id, added) || (AtWork(s', id) && s'.surfaces == s.surfaces && s'.nextContents == s.nextContents)
  {
    SlotHolds(s, id);
    if id !in s.networks { TargetIsExchanged(s, Recovery(Shown(s, id), None, Disposing), added); }
  }

  lemma OldTargetIsLeft(s: Tabs, id: SurfaceId, added: bool)
    requires Reachable(s) && id in s.surfaces && s.surfaces[id].surface.view.Some?
    requires id in s.recoveries && s.recoveries[id].stage == Disposing && s.recoveries[id].pending == Some(Shown(s, id))
    ensures var s' := Next(s, Resumed(id, true, added, true, false));
            AboutTo(s', id) && s'.surfaces == s.surfaces && s'.nextContents == s.nextContents
  {
    SlotHolds(s, id);
  }

  /**
   Every crashed view is exchanged: in whatever state its loop stands, when it goes on at most three times and the native
   calls succeed, the surface shows a new view of the next generation.
   */
  lemma CrashedViewIsExchanged(s: Tabs, id: SurfaceId, added: bool) returns (n: nat)
    requires Reachable(s) && id in s.surfaces && s.surfaces[id].surface.crashed
    ensures 1 <= n <= 3 && Exchanged(s, Resumes(s, id, added, n), id, added)
  {
    CrashedIsWorkedOn(s, id);
    if AtWork(s, id) {
      n := 1;
      RecoveryExchangesItsTarget(s, id, added, true, false);
      ResumesOnce(s, id, added);
    } else if AboutTo(s, id) {
      n := TakenUp(s, id, added);
    } else {
      var s' := Next(s, Resumed(id, true, added, true, false));
      OldTargetIsLeft(s, id, added);
      ReachableNext(s, Resumed(id, true, added, true, false));
      n := TakenUp(s', id, added);
      n := n + 1;
    }
  }

  lemma ResumesOnce(s: Tabs, id: SurfaceId, added: bool)
    ensures Resumes(s, id, added, 1) == Next(s, Resumed(id, true, added, true, false))
  {
  }

  lemma TakenUp(s: Tabs, id: SurfaceId, added: bool) returns (n: nat)
    requires Reachable(s) && AboutTo(s, id)
    ensures 1 <= n <= 2 && Exchanged(s, Resumes(s, id, added, n), id, added)
  {
    var e := Resumed(id, true, added, true, false);
    var s' := Next(s, e);
    PendingIsTakenUp(s, id, added);
    if Exchanged(s, s', id, added) {
      n := 1;
      ResumesOnce(s, id, added);
    } else {
      n := 2;
      ReachableNext(s, e);
      RecoveryExchangesItsTarget(s', id, added, true, false);
      ResumesOnce(s', id, added);
    }
  }
}
