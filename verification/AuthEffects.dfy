/** What challenges, answers of the resolver and clearing do to the challenges that wait. */
module AuthEffects {
  import opened Wrappers
  import opened AuthQueues

  ghost predicate Reachable(s: Auth, maxQueue: int) {
    maxQueue >= 1 && exists events :: Run(START, maxQueue, events) == s
  }

  lemma ReachableInv(s: Auth, maxQueue: int)
    requires Reachable(s, maxQueue)
    ensures Inv(s, maxQueue) && |s.unsettled| == if s.running then 1 else 0
  {
    var events :| Run(START, maxQueue, events) == s;
    RunKeeps(START, maxQueue, events);
    if s.running {
      var x :| x in s.unsettled;
      assert s.unsettled == {x};
    }
  }

  /** A challenge is refused exactly if it is not valid, the controller is disposed, or all its places are taken. */
  lemma RefusedExactly(s: Auth, maxQueue: int, valid: bool)
    requires Reachable(s, maxQueue)
    ensures Refuses(s, maxQueue, valid) <==> s.disposed || !valid || |s.queue| + |s.unsettled| >= maxQueue
  {
    ReachableInv(s, maxQueue);
  }

  /** An accepted challenge goes to the resolver if that is free, else it waits behind all others; it is not answered yet. */
  lemma AcceptedChallengeIsTakenUp(s: Auth, maxQueue: int, key: Key)
    requires Reachable(s, maxQueue) && !s.disposed && |s.queue| + |s.unsettled| < maxQueue
    ensures var t := Next(s, maxQueue, Challenged(true, key));
            && t.next == s.next + 1 && t.answered == s.answered && t.given == s.given && !t.disposed
            && (if s.unsettled == {} then t.unsettled == {s.next} && t.queue == []
                else t.unsettled == s.unsettled && t.queue == s.queue + [s.next])
  {
    ReachableInv(s, maxQueue);
  }

  /** A refused challenge is answered at once, without credentials, and nothing else happens. */
  lemma RefusedChallengeIsAnswered(s: Auth, maxQueue: int, valid: bool, key: Key)
    requires Reachable(s, maxQueue) && (s.disposed || !valid || |s.queue| + |s.unsettled| >= maxQueue)
    ensures Next(s, maxQueue, Challenged(valid, key)) == s.(next := s.next + 1, answered := s.answered + multiset{s.next})
  {
    ReachableInv(s, maxQueue);
  }

  /** The answer for the challenge with the resolver is handed on, and the challenge that waited longest takes its place. */
  lemma ResolvedIsHandedOn(s: Auth, maxQueue: int, challenge: nat, credentials: Option<Credentials>)
    requires Reachable(s, maxQueue) && challenge in s.unsettled && !s.disposed
    ensures var t := Next(s, maxQueue, Resolves(challenge, credentials));
            && t.answered == s.answered + multiset{challenge} && t.next == s.next && !t.disposed
            && t.given == (if credentials.Some? then s.given[challenge := credentials.value] else s.given)
            && (if s.queue == [] then t.unsettled == {} && t.queue == []
                else t.unsettled == {s.queue[0]} && t.queue == s.queue[1..])
            && t.seen == s.seen
  {
    ReachableInv(s, maxQueue);
  }

  /** A timer answers its challenge like a resolver that has no credentials. */
  lemma TimeoutAnswersWithNothing(s: Auth, maxQueue: int, challenge: nat)
    requires Reachable(s, maxQueue) && challenge in s.unsettled && !s.disposed
    ensures var t := Next(s, maxQueue, TimesOut(challenge));
            && t.given == s.given && t.answered == s.answered + multiset{challenge}
            && t == Next(s, maxQueue, Resolves(challenge, None))
  {
    ReachableInv(s, maxQueue);
  }

  /** An answer that comes after the disposal ends its challenge without credentials. */
  lemma ResolvedAfterDisposal(s: Auth, maxQueue: int, challenge: nat, credentials: Option<Credentials>)
    requires Reachable(s, maxQueue) && challenge in s.unsettled && s.disposed
    ensures var t := Next(s, maxQueue, Resolves(challenge, credentials));
            t.given == s.given && t.answered == s.answered + multiset{challenge} && t.unsettled == {} && t.queue == []
  {
    ReachableInv(s, maxQueue);
  }

  /** Clearing answers every waiting challenge without credentials; the one with the resolver stays there. */
  lemma ClearingAnswersTheWaiting(s: Auth, maxQueue: int, challenge: nat)
    requires Reachable(s, maxQueue)
    ensures var t := Next(s, maxQueue, Cleared);
            && t.queue == [] && t.unsettled == s.unsettled && t.given == s.given && t.disposed == s.disposed && t.next == s.next
            && t.answered[challenge] == if challenge in s.queue then 1 else s.answered[challenge]
  {
    ReachableInv(s, maxQueue);
    CountDistinct(s.queue);
  }

  /** A disposal does the same, and no challenge is accepted after it. */
  lemma DisposalAnswersTheWaiting(s: Auth, maxQueue: int, valid: bool)
    requires Reachable(s, maxQueue) && !s.disposed
    ensures var t := Next(s, maxQueue, Disposed);
            t.disposed && t == Next(s, maxQueue, Cleared).(disposed := true) && Refuses(t, maxQueue, valid)
  {
  }

  /** A second challenge with the same key is a retry, until the controller is cleared. */
  lemma SecondChallengeIsARetry(s: Auth, maxQueue: int, key: Key, other: Key)
    requires Reachable(s, maxQueue) && !s.disposed && |s.queue| + |s.unsettled| < maxQueue && |s.seen| < 64
    ensures var t := Next(s, maxQueue, Challenged(true, key));
            IsRetry(t, key) && (other != key ==> (IsRetry(t, other) <==> IsRetry(s, other))) && !IsRetry(Next(t, maxQueue, Cleared), key)
  {
    ReachableInv(s, maxQueue);
  }

  /** No more than 64 keys are remembered, in any run, and once there are so many a new one is not. */
  lemma {:induction false} RememberedKeysAreBounded(s: Auth, maxQueue: int, events: seq<Event>)
    requires |s.seen| <= 64
    ensures |Run(s, maxQueue, events).seen| <= 64
    decreases |events|
  {
    if events != [] {
      var t := Next(s, maxQueue, events[0]);
      assert |t.seen| <= 64 && (|s.seen| == 64 ==> t.seen == s.seen || t.seen == {});
      RememberedKeysAreBounded(t, maxQueue, events[1..]);
    }
  }

  // ---- every challenge gets its turn ----

  /** The resolver answers what waits, one after the other, as given by a function. */
  function Resolving(queue: seq<nat>, told: nat -> Credentials): (events: seq<Event>)
    ensures |events| == |queue|
  {
    seq(|queue|, i requires 0 <= i < |queue| => Resolves(queue[i], Some(told(queue[i]))))
  }

  /** If the resolver answers each time, everything that waits is given its own credentials. */
  lemma {:induction false} EveryChallengeIsResolved(s: Auth, maxQueue: int, now: nat, told: nat -> Credentials)
    requires Inv(s, maxQueue) && !s.disposed && s.unsettled == {now}
    ensures var all := [now] + s.queue;
            var t := Run(s, maxQueue, Resolving(all, told));
            && t.queue == [] && t.unsettled == {}
            && forall c :: c in all ==> c in t.given && t.given[c] == told(c)
    decreases |s.queue|
  {
    var all := [now] + s.queue;
    var events := Resolving(all, told);
    var t := Next(s, maxQueue, events[0]);
    assert s.queue == all[1..];
    assert events[1..] == Resolving(s.queue, told);
    FinishKeeps(s, maxQueue, now, Some(told(now)));
    assert events[0] == Resolves(now, Some(told(now)));
    assert t.given == s.given[now := told(now)];
    if s.queue == [] {
      assert Run(t, maxQueue, events[1..]) == t;
    } else {
      assert [s.queue[0]] + s.queue[1..] == s.queue;
      EveryChallengeIsResolved(t, maxQueue, s.queue[0], told);
      OthersKeepTheirs(t, maxQueue, s.queue, told, now);
    }
  }

  lemma {:induction false} OthersKeepTheirs(s: Auth, maxQueue: int, queue: seq<nat>, told: nat -> Credentials, challenge: nat)
    requires challenge in s.given && challenge !in queue
    ensures var t := Run(s, maxQueue, Resolving(queue, told)); challenge in t.given && t.given[challenge] == s.given[challenge]
    decreases |queue|
  {
    var events := Resolving(queue, told);
    if queue != [] {
      assert events[1..] == Resolving(queue[1..], told);
      assert queue[0] != challenge;
      StepTells(s, maxQueue, events[0], challenge);
      OthersKeepTheirs(Next(s, maxQueue, events[0]), maxQueue, queue[1..], told, challenge);
    }
  }
}
