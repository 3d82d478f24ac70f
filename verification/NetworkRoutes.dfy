/** The routes of a browser session (apps/desktop/src/browser-network.ts): a map that keeps its insertion order. */
module NetworkRoutes {
  import opened Wrappers
  import opened RouteExpressions

  const MAX_ROUTES := 64

  /** Generated ids and the ids callers choose; a caller may also choose one of the generated form. */
  datatype RouteId = Numbered(number: nat) | Named(name: nat)

  datatype Action = Abort | Redirect(url: nat)

  /** A route, with the number of routes that were added before it. */
  datatype Route = Route(id: RouteId, pattern: Text, action: Action, stamp: nat)

  /** What a caller asks for; nothing stands for a value that is refused or, for the id, not given. */
  datatype Wish = Wish(id: Option<RouteId>, pattern: Option<Text>, abort: bool, redirect: bool, target: Option<nat>)

  datatype Routes = Routes(list: seq<Route>, nextNumber: nat, added: nat, disposed: bool)

  const NONE := Routes([], 1, 0, false)

  function Ids(list: seq<Route>): set<RouteId> {
    set i | 0 <= i < |list| :: list[i].id
  }

  /** The id a wish gets, and whether it uses up a number. */
  function ChosenId(s: Routes, wish: Wish): RouteId {
    if wish.id.Some? then wish.id.value else Numbered(s.nextNumber)
  }

  predicate Considered(s: Routes, available: bool, wish: Wish) {
    !s.disposed && available && |s.list| < MAX_ROUTES && wish.pattern.Some? && (wish.abort || wish.redirect)
  }

  predicate Added(s: Routes, available: bool, wish: Wish) {
    Considered(s, available, wish) && ChosenId(s, wish) !in Ids(s.list) && (wish.abort || wish.target.Some?)
  }

  function AddRoute(s: Routes, available: bool, wish: Wish): Routes {
    if !Considered(s, available, wish) then s else
    var numbered := if wish.id.Some? then s else s.(nextNumber := s.nextNumber + 1);
    if !Added(s, available, wish) then numbered
    else
      var action := if wish.abort then Abort else Redirect(wish.target.value);
      numbered.(list := s.list + [Route(ChosenId(s, wish), wish.pattern.value, action, s.added)], added := s.added + 1)
  }

  function Without(list: seq<Route>, id: RouteId): seq<Route> {
    if list == [] then [] else if list[0].id == id then Without(list[1..], id) else [list[0]] + Without(list[1..], id)
  }

  function RemoveRoute(s: Routes, id: Option<RouteId>): Routes {
    if s.disposed || id.None? then s else s.(list := Without(s.list, id.value))
  }

  predicate Catches(fold: Folding, route: Route, url: Text) {
    EveryPatternCompiles(route.pattern);
    Test(fold, Parse(Source(route.pattern)).value, url)
  }

  /** The first route in the list that catches a URL. */
  function Find(fold: Folding, list: seq<Route>, url: Text): Option<Route> {
    if list == [] then None else if Catches(fold, list[0], url) then Some(list[0]) else Find(fold, list[1..], url)
  }

  // ---- runs ----

  datatype Event = Adds(available: bool, wish: Wish) | Removes(id: Option<RouteId>) | Disposes

  function Next(s: Routes, e: Event): Routes {
    match e
    case Adds(available, wish) => AddRoute(s, available, wish)
    case Removes(id) => RemoveRoute(s, id)
    case Disposes => s.(list := [], disposed := true)
  }

  function Run(s: Routes, events: seq<Event>): Routes
    decreases |events|
  {
    if events == [] then s else Run(Next(s, events[0]), events[1..])
  }

  ghost predicate DistinctIds(list: seq<Route>) {
    forall i, j :: 0 <= i < j < |list| ==> list[i].id != list[j].id
  }

  ghost predicate InOrder(list: seq<Route>) {
    forall i, j :: 0 <= i < j < |list| ==> list[i].stamp < list[j].stamp
  }

  /** At most 64 routes with distinct ids, in the order in which they were added. */
  ghost predicate Inv(s: Routes) {
    && |s.list| <= MAX_ROUTES && DistinctIds(s.list) && InOrder(s.list)
    && forall i :: 0 <= i < |s.list| ==> s.list[i].stamp < s.added
  }

  lemma AddKeeps(s: Routes, available: bool, wish: Wish)
    requires Inv(s)
    ensures Inv(AddRoute(s, available, wish))
  {
    if Added(s, available, wish) {
      forall i | 0 <= i < |s.list| ensures s.list[i].id != ChosenId(s, wish) { assert s.list[i].id in Ids(s.list); }
    }
  }

  lemma {:induction false} WithoutIs(list: seq<Route>, id: RouteId)
    ensures |Without(list, id)| <= |list|
    ensures forall r :: r in Without(list, id) <==> r in list && r.id != id
  {
    if list != [] {
      WithoutIs(list[1..], id);
      assert list == [list[0]] + list[1..];
    }
  }

  lemma ConsKeepsOrder(r: Route, list: seq<Route>)
    requires DistinctIds(list) && InOrder(list)
    requires forall j :: 0 <= j < |list| ==> list[j].id != r.id && r.stamp < list[j].stamp
    ensures DistinctIds([r] + list) && InOrder([r] + list)
  {
  }

  lemma {:induction false} WithoutKeepsOrder(list: seq<Route>, id: RouteId)
    requires DistinctIds(list) && InOrder(list)
    ensures DistinctIds(Without(list, id)) && InOrder(Without(list, id))
  {
    if list != [] {
      var rest := list[1..];
      WithoutKeepsOrder(rest, id);
      WithoutIs(rest, id);
      var kept := Without(rest, id);
      forall j | 0 <= j < |kept| ensures kept[j].id != list[0].id && list[0].stamp < kept[j].stamp { assert kept[j] in rest; }
      ConsKeepsOrder(list[0], kept);
    }
  }

  lemma RemoveKeeps(s: Routes, id: Option<RouteId>)
    requires Inv(s)
    ensures Inv(RemoveRoute(s, id))
  {
    if id.Some? {
      WithoutIs(s.list, id.value);
      WithoutKeepsOrder(s.list, id.value);
      var kept := Without(s.list, id.value);
      forall i | 0 <= i < |kept| ensures kept[i].stamp < s.added { assert kept[i] in s.list; }
    }
  }

  lemma {:induction false} RunKeeps(s: Routes, events: seq<Event>)
    requires Inv(s)
    ensures Inv(Run(s, events))
    decreases |events|
  {
    if events != [] {
      match events[0] {
        case Adds(available, wish) => AddKeeps(s, available, wish);
        case Removes(id) => RemoveKeeps(s, id);
        case Disposes =>
      }
      RunKeeps(Next(s, events[0]), events[1..]);
    }
  }

  lemma {:induction false} FindIsFirst(fold: Folding, list: seq<Route>, url: Text)
    requires InOrder(list)
    ensures var r := Find(fold, list, url);
            && (r.None? <==> forall i :: 0 <= i < |list| ==> !Glob(fold, list[i].pattern, url))
            && (r.Some? ==>
                  && r.value in list && Glob(fold, r.value.pattern, url)
                  && forall i :: 0 <= i < |list| && list[i].stamp < r.value.stamp ==> !Glob(fold, list[i].pattern, url))
  {
    if list != [] {
      CompiledPatternIsTheGlob(fold, list[0].pattern, url);
      if !Catches(fold, list[0], url) {
        FindIsFirst(fold, list[1..], url);
        assert list == [list[0]] + list[1..];
      }
    }
  }

  /**
   After any routes were added and removed, a request gets the earliest added of the routes whose glob matches its
   URL, and none when no glob matches.
   */
  lemma EarliestMatchingRouteWins(fold: Folding, events: seq<Event>, url: Text)
    ensures var s := Run(NONE, events);
            var r := Find(fold, s.list, url);
            && |s.list| <= MAX_ROUTES && DistinctIds(s.list)
            && (r.None? <==> forall i :: 0 <= i < |s.list| ==> !Glob(fold, s.list[i].pattern, url))
            && (r.Some? ==>
                  && r.value in s.list && Glob(fold, r.value.pattern, url)
                  && forall i :: 0 <= i < |s.list| && s.list[i].stamp < r.value.stamp ==> !Glob(fold, s.list[i].pattern, url))
  {
    RunKeeps(NONE, events);
    FindIsFirst(fold, Run(NONE, events).list, url);
  }

  // ---- the controller as the source updates it ----

  class BrowserNetworkController {
    var routes: seq<Route>
    var nextRouteNumber: nat
    var disposed: bool
    /** The number of insertions so far, by which the map orders its entries. */
    var added: nat

    ghost function Model(): Routes
      reads this
    {
      Routes(routes, nextRouteNumber, added, disposed)
    }

    constructor ()
      ensures Model() == NONE
    {
      routes, nextRouteNumber, disposed, added := [], 1, false, 0;
    }

    method SetRoute(available: bool, wish: Wish) returns (ok: bool)
      modifies this
      ensures Model() == AddRoute(old(Model()), available, wish)
      ensures ok <==> Added(old(Model()), available, wish)
    {
      if disposed || !available || |routes| >= MAX_ROUTES || wish.pattern.None? { return false; }
      if !wish.abort && !wish.redirect { return false; }
      var id := if wish.id.Some? then wish.id.value else Numbered(nextRouteNumber);
      if wish.id.None? { nextRouteNumber := nextRouteNumber + 1; }
      if id in Ids(routes) { return false; }
      if !wish.abort && wish.target.None? { return false; }
      var action := if wish.abort then Abort else Redirect(wish.target.value);
      routes := routes + [Route(id, wish.pattern.value, action, added)];
      added := added + 1;
      ok := true;
    }

    method Unroute(id: Option<RouteId>)
      modifies this`routes
      ensures Model() == RemoveRoute(old(Model()), id)
    {
      if disposed || id.None? { return; }
      routes := Without(routes, id.value);
    }

    /** The lookup for a request. */
    method RouteFor(fold: Folding, url: Text) returns (r: Option<Route>)
      ensures r == Find(fold, routes, url)
    {
      var i := 0;
      assert routes[0..] == routes;
      while i < |routes|
        invariant 0 <= i <= |routes| && Find(fold, routes, url) == Find(fold, routes[i..], url)
      {
        assert routes[i..][1..] == routes[i + 1..];
        if Catches(fold, routes[i], url) { return Some(routes[i]); }
        i := i + 1;
      }
      r := None;
    }
  }
}
