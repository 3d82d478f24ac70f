/** What adding and removing routes does to the requests that follow. */
module RouteEffects {
  import opened Wrappers
  import opened RouteExpressions
  import opened NetworkRoutes

  ghost predicate Reachable(s: Routes) {
    exists events :: Run(NONE, events) == s
  }

  lemma ReachableInv(s: Routes)
    requires Reachable(s)
    ensures Inv(s)
  {
    var events :| Run(NONE, events) == s;
    RunKeeps(NONE, events);
  }

  /** What a wish must have: a pattern, and an action of which a redirect has a target. */
  predicate Complete(wish: Wish) {
    wish.pattern.Some? && (wish.abort || (wish.redirect && wish.target.Some?))
  }

  predicate Free(s: Routes, id: RouteId) {
    forall i :: 0 <= i < |s.list| ==> s.list[i].id != id
  }

  /** The id a route gets: the wished one, or the next number. */
  function IdFor(s: Routes, wish: Wish): RouteId {
    if wish.id.Some? then wish.id.value else Numbered(s.nextNumber)
  }

  predicate Open(s: Routes, available: bool) {
    !s.disposed && available && |s.list| < 64
  }

  /**
   A complete wish with a free id is added behind all routes, with its own pattern and action; a number is used up if it
   had no id.
   */
  lemma WishIsAdded(s: Routes, available: bool, wish: Wish)
    requires Open(s, available) && Complete(wish) && Free(s, IdFor(s, wish))
    ensures var s' := Next(s, Adds(available, wish));
            var route := Route(IdFor(s, wish), wish.pattern.value, if wish.abort then Abort else Redirect(wish.target.value), s.added);
            && s'.list == s.list + [route] && s'.added == s.added + 1 && !s'.disposed
            && s'.nextNumber == if wish.id.Some? then s.nextNumber else s.nextNumber + 1
  {
  }

  /** Otherwise no route is added; a number is used up only where the wish had no id and passed the first checks. */
  lemma OtherWishIsRefused(s: Routes, available: bool, wish: Wish)
    requires !Open(s, available) || !Complete(wish) || !Free(s, IdFor(s, wish))
    ensures var s' := Next(s, Adds(available, wish));
            && s' == s.(nextNumber := s'.nextNumber)
            && s'.nextNumber == if Open(s, available) && wish.pattern.Some? && (wish.abort || wish.redirect) && wish.id.None?
                                then s.nextNumber + 1 else s.nextNumber
  {
    if !Free(s, IdFor(s, wish)) {
      var i :| 0 <= i < |s.list| && s.list[i].id == IdFor(s, wish);
      assert s.list[i].id in Ids(s.list);
    }
  }

  /** The new route catches what no earlier route does and its own pattern matches. */
  lemma AddedRouteCatches(fold: Folding, s: Routes, available: bool, wish: Wish, url: Text)
    requires Reachable(s) && Open(s, available) && Complete(wish) && Free(s, IdFor(s, wish))
    ensures var s' := Next(s, Adds(available, wish));
            var before, now := Find(fold, s.list, url), Find(fold, s'.list, url);
            && (before.Some? ==> now == before)
            && (before.None? ==>
                  && (now.Some? <==> Glob(fold, wish.pattern.value, url))
                  && (now.Some? ==>
                        now.value.id == IdFor(s, wish)
                        && now.value.action == if wish.abort then Abort else Redirect(wish.target.value)))
  {
    WishIsAdded(s, available, wish);
    var route := Next(s, Adds(available, wish)).list[|s.list|];
    FindAppend(fold, s.list, route, url);
    CompiledPatternIsTheGlob(fold, route.pattern, url);
  }

  lemma {:induction false} FindAppend(fold: Folding, list: seq<Route>, route: Route, url: Text)
    ensures Find(fold, list + [route], url) ==
            if Find(fold, list, url).Some? then Find(fold, list, url) else if Catches(fold, route, url) then Some(route) else None
  {
    if list == [] {
      assert [] + [route] == [route] && [route][1..] == [];
    } else {
      assert (list + [route])[1..] == list[1..] + [route];
      FindAppend(fold, list[1..], route, url);
    }
  }

  /** A removal takes exactly the route of the id, and the others keep their places. */
  lemma RouteIsRemoved(s: Routes, id: RouteId)
    requires Reachable(s) && !s.disposed
    ensures var s' := Next(s, Removes(Some(id)));
            && s' == s.(list := s'.list)
            && (if Free(s, id) then s'.list == s.list
                else exists at :: 0 <= at < |s.list| && s.list[at].id == id && s'.list == s.list[..at] + s.list[at + 1..])
  {
    ReachableInv(s);
    if Free(s, id) {
      WithoutAbsent(s.list, id);
    } else {
      var at :| 0 <= at < |s.list| && s.list[at].id == id;
      WithoutAt(s.list, at);
    }
  }

  lemma {:induction false} WithoutAbsent(list: seq<Route>, id: RouteId)
    requires forall i :: 0 <= i < |list| ==> list[i].id != id
    ensures Without(list, id) == list
  {
    if list != [] { WithoutAbsent(list[1..], id); }
  }

  lemma {:induction false} WithoutAt(list: seq<Route>, at: nat)
    requires at < |list| && DistinctIds(list)
    ensures Without(list, list[at].id) == list[..at] + list[at + 1..]
  {
    if at > 0 {
      WithoutAt(list[1..], at - 1);
      assert list[..at] == [list[0]] + list[1..][..at - 1];
      assert list[0].id != list[at].id;
    } else {
      WithoutAbsent(list[1..], list[0].id);
    }
  }

  /** After disposal there are no routes, and none is added. */
  lemma DisposalEndsRouting(s: Routes, available: bool, wish: Wish)
    ensures var gone := Next(s, Disposes); gone.list == [] && gone.disposed && Next(gone, Adds(available, wish)) == gone
  {
  }
}
