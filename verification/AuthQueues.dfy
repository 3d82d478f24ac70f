/**
 The queue of HTTP Basic challenges (apps/desktop/src/browser-auth.ts). A challenge is known by the number of
 challenges before it. The resolver and the timer of a challenge act whenever they like, also after it was answered.
 */
module AuthQueues {
  import opened Wrappers

  type Key = nat

  type Credentials = nat

  /** seen holds at most twice as many keys as the largest queue. */
  const MAX_SEEN := 64

  /** The controller with its history: what every challenge was told, and the keys asked for since the last clear. */
  datatype Auth = Auth(
    queue: seq<nat>,
    running: bool,
    disposed: bool,
    seen: set<Key>,
    asked: set<Key>,
    next: nat,
    unsettled: set<nat>,
    answered: multiset<nat>,
    given: map<nat, Credentials>)

  const START := Auth([], false, false, {}, {}, 0, {}, multiset{}, map[])

  /** One callback, with credentials or without. */
  function Answer(s: Auth, challenge: nat, credentials: Option<Credentials>): Auth {
    s.(answered := s.answered + multiset{challenge},
       given := if credentials.Some? then s.given[challenge := credentials.value] else s.given)
  }

  function Drain(s: Auth): Auth {
    if s.running || s.disposed || s.queue == [] then s
    else s.(queue := s.queue[1..], running := true, unsettled := s.unsettled + {s.queue[0]})
  }

  function Finish(s: Auth, challenge: nat, credentials: Option<Credentials>): Auth {
    if challenge !in s.unsettled then s
    else
      Drain(Answer(s.(unsettled := s.unsettled - {challenge}), challenge, if s.disposed then None else credentials)
            .(running := false))
  }

  predicate Refuses(s: Auth, maxQueue: int, valid: bool) {
    s.disposed || !valid || |s.queue| >= maxQueue || (s.running && |s.queue| >= maxQueue - 1)
  }

  /** What the resolver is told about an accepted challenge: whether its key was seen before. */
  predicate IsRetry(s: Auth, key: Key) {
    key in s.seen
  }

  function Remember(s: Auth, key: Key): Auth {
    s.(seen := if |s.seen| < MAX_SEEN then s.seen + {key} else s.seen, asked := s.asked + {key})
  }

  function Login(s: Auth, maxQueue: int, valid: bool, key: Key): Auth {
    var numbered := s.(next := s.next + 1);
    if Refuses(s, maxQueue, valid) then Answer(numbered, s.next, None)
    else Drain(Remember(numbered.(queue := s.queue + [s.next]), key))
  }

  function Clear(s: Auth): Auth {
    s.(queue := [], answered := s.answered + multiset(s.queue), seen := {}, asked := {})
  }

  function Dispose(s: Auth): Auth {
    if s.disposed then s else Clear(s.(disposed := true))
  }

  // ---- runs ----

  datatype Event =
    | Challenged(valid: bool, key: Key)
    | Resolves(challenge: nat, credentials: Option<Credentials>)
    | TimesOut(challenge: nat)
    | Cleared
    | Disposed

  function Next(s: Auth, maxQueue: int, e: Event): Auth {
    match e
    case Challenged(valid, key) => Login(s, maxQueue, valid, key)
    case Resolves(challenge, credentials) => Finish(s, challenge, credentials)
    case TimesOut(challenge) => Finish(s, challenge, None)
    case Cleared => Clear(s)
    case Disposed => Dispose(s)
  }

  function Run(s: Auth, maxQueue: int, events: seq<Event>): Auth
    decreases |events|
  {
    if events == [] then s else Run(Next(s, maxQueue, events[0]), maxQueue, events[1..])
  }

  // ---- what every step keeps ----

  ghost predicate Distinct(queue: seq<nat>) {
    forall i, j :: 0 <= i < j < |queue| ==> queue[i] != queue[j]
  }

  /** Waiting challenges are distinct, known and not with the resolver. */
  ghost predicate Waiting(queue: seq<nat>, next: nat, unsettled: set<nat>) {
    Distinct(queue) && forall i :: 0 <= i < |queue| ==> queue[i] < next && queue[i] !in unsettled
  }

  /** At most one challenge is with the resolver, and only while running. */
  ghost predicate OneFlight(running: bool, unsettled: set<nat>, next: nat) {
    && (running <==> unsettled != {})
    && (forall x, y :: x in unsettled && y in unsettled ==> x == y)
    && (forall x :: x in unsettled ==> x < next)
  }

  ghost predicate AnsweredOnce(s: Auth) {
    forall j :: s.answered[j] == if 0 <= j < s.next && j !in s.queue && j !in s.unsettled then 1 else 0
  }

  ghost predicate Inv(s: Auth, maxQueue: int) {
    && Waiting(s.queue, s.next, s.unsettled)
    && OneFlight(s.running, s.unsettled, s.next)
    && AnsweredOnce(s)
    && |s.queue| + (if s.running then 1 else 0) <= maxQueue
    && (s.queue != [] ==> s.running && !s.disposed)
  }

  lemma DrainKeeps(s: Auth, maxQueue: int)
    requires Waiting(s.queue, s.next, s.unsettled) && OneFlight(s.running, s.unsettled, s.next) && AnsweredOnce(s)
    requires |s.queue| + (if s.running then 1 else 0) <= maxQueue && (s.queue != [] ==> !s.disposed)
    ensures Inv(Drain(s), maxQueue)
  {
    if s.queue != [] && !s.running {
      var rest := s.queue[1..];
      assert s.queue == [s.queue[0]] + rest;
      assert s.queue[0] !in rest;
    }
  }

  lemma FinishKeeps(s: Auth, maxQueue: int, challenge: nat, credentials: Option<Credentials>)
    requires Inv(s, maxQueue)
    ensures Inv(Finish(s, challenge, credentials), maxQueue)
  {
    if challenge in s.unsettled {
      var t := Answer(s.(unsettled := s.unsettled - {challenge}), challenge, if s.disposed then None else credentials)
               .(running := false);
      assert s.unsettled == {challenge};
      DrainKeeps(t, maxQueue);
    }
  }

  lemma LoginKeeps(s: Auth, maxQueue: int, valid: bool, key: Key)
    requires Inv(s, maxQueue)
    ensures Inv(Login(s, maxQueue, valid, key), maxQueue)
  {
    if !Refuses(s, maxQueue, valid) {
      var t := Remember(s.(next := s.next + 1, queue := s.queue + [s.next]), key);
      DrainKeeps(t, maxQueue);
    }
  }

  lemma {:induction false} CountDistinct(queue: seq<nat>)
    requires Distinct(queue)
    ensures forall j :: multiset(queue)[j] == if j in queue then 1 else 0
  {
    if queue != [] {
      var rest := queue[1..];
      assert queue == [queue[0]] + rest;
      CountDistinct(rest);
      assert queue[0] !in rest;
    }
  }

  lemma ClearKeeps(s: Auth, maxQueue: int)
    requires Inv(s, maxQueue)
    ensures Inv(Clear(s), maxQueue)
  {
    CountDistinct(s.queue);
  }

  lemma NextKeeps(s: Auth, maxQueue: int, e: Event)
    requires Inv(s, maxQueue)
    ensures Inv(Next(s, maxQueue, e), maxQueue)
  {
    match e
    case Challenged(valid, key) => LoginKeeps(s, maxQueue, valid, key);
    case Resolves(challenge, credentials) => FinishKeeps(s, maxQueue, challenge, credentials);
    case TimesOut(challenge) => FinishKeeps(s, maxQueue, challenge, None);
    case Cleared => ClearKeeps(s, maxQueue);
    case Disposed => DisposeKeeps(s, maxQueue);
  }

  lemma DisposeKeeps(s: Auth, maxQueue: int)
    requires Inv(s, maxQueue)
    ensures Inv(Dispose(s), maxQueue)
  {
    ClearKeeps(s, maxQueue);
  }

  lemma {:induction false} RunKeeps(s: Auth, maxQueue: int, events: seq<Event>)
    requires Inv(s, maxQueue)
    ensures Inv(Run(s, maxQueue, events), maxQueue)
    decreases |events|
  {
    if events != [] {
      NextKeeps(s, maxQueue, events[0]);
      RunKeeps(Next(s, maxQueue, events[0]), maxQueue, events[1..]);
    }
  }

  /**
   In every run: waiting and running challenges fit the queue, at most one is with the resolver, a non-empty queue
   has the resolver running, and every challenge is answered exactly once as soon as it is neither waiting nor with
   the resolver, and never before.
   */
  lemma EveryChallengeIsAnsweredOnce(maxQueue: int, events: seq<Event>, challenge: nat)
    requires maxQueue >= 1
    ensures var s := Run(START, maxQueue, events);
            && |s.queue| + |s.unsettled| <= maxQueue && |s.unsettled| <= 1
            && (s.queue != [] ==> s.running && s.unsettled != {})
            && s.answered[challenge] ==
               (if challenge < s.next && challenge !in s.queue && challenge !in s.unsettled then 1 else 0)
  {
    RunKeeps(START, maxQueue, events);
    var s := Run(START, maxQueue, events);
    if s.running {
      var x :| x in s.unsettled;
      assert s.unsettled == {x};
    }
  }

  // ---- whose credentials ----

  ghost predicate Said(events: seq<Event>, challenge: nat, credentials: Credentials) {
    exists i :: 0 <= i < |events| && events[i] == Resolves(challenge, Some(credentials))
  }

  /** One step tells credentials only to the challenge they were resolved for. */
  lemma StepTells(s: Auth, maxQueue: int, e: Event, challenge: nat)
    ensures var t := Next(s, maxQueue, e);
            challenge in t.given ==>
              || (challenge in s.given && s.given[challenge] == t.given[challenge])
              || e == Resolves(challenge, Some(t.given[challenge]))
  {
  }

  /** A challenge is only ever given credentials that the resolver returned for that very challenge. */
  lemma {:induction false} CredentialsStayWithTheirChallenge(s: Auth, maxQueue: int, events: seq<Event>, challenge: nat)
    ensures var t := Run(s, maxQueue, events);
            challenge in t.given ==>
              || (challenge in s.given && s.given[challenge] == t.given[challenge])
              || Said(events, challenge, t.given[challenge])
    decreases |events|
  {
    if events != [] {
      var u := Next(s, maxQueue, events[0]);
      StepTells(s, maxQueue, events[0], challenge);
      CredentialsStayWithTheirChallenge(u, maxQueue, events[1..], challenge);
      var t := Run(u, maxQueue, events[1..]);
      if challenge in t.given && Said(events[1..], challenge, t.given[challenge]) {
        var i :| 0 <= i < |events| - 1 && events[1..][i] == Resolves(challenge, Some(t.given[challenge]));
        assert events[i + 1] == Resolves(challenge, Some(t.given[challenge]));
      }
    }
  }

  /** What comes after the answer of a challenge, a late result or a late timer, changes nothing at all. */
  lemma LateResultIsIgnored(maxQueue: int, events: seq<Event>, challenge: nat, credentials: Option<Credentials>)
    requires maxQueue >= 1
    ensures var s := Run(START, maxQueue, events);
            s.answered[challenge] > 0 ==>
              && Next(s, maxQueue, Resolves(challenge, credentials)) == s
              && Next(s, maxQueue, TimesOut(challenge)) == s
  {
    EveryChallengeIsAnsweredOnce(maxQueue, events, challenge);
  }

  lemma {:induction false} DisposedGivesNothing(s: Auth, maxQueue: int, events: seq<Event>)
    requires s.disposed
    ensures Run(s, maxQueue, events).given == s.given
    decreases |events|
  {
    if events != [] {
      var t := Next(s, maxQueue, events[0]);
      assert t.disposed && t.given == s.given;
      DisposedGivesNothing(t, maxQueue, events[1..]);
    }
  }

  /**
   Once disposed, no challenge is given credentials again, not even one that was with the resolver; every challenge
   that comes or is answered later is told nothing.
   */
  lemma NoCredentialsAfterDisposal(maxQueue: int, before: seq<Event>, after: seq<Event>)
    ensures var s := Run(START, maxQueue, before);
            Run(Next(s, maxQueue, Disposed), maxQueue, after).given == s.given
  {
    var s := Run(START, maxQueue, before);
    DisposedGivesNothing(Dispose(s), maxQueue, after);
  }

  // ---- retries ----

  ghost predicate SeenOk(s: Auth) {
    s.seen <= s.asked && (|s.asked| <= MAX_SEEN ==> s.seen == s.asked)
  }

  lemma RememberKeepsSeen(s: Auth, key: Key)
    requires SeenOk(s)
    ensures SeenOk(Remember(s, key))
  {
    if key in s.asked {
      assert s.asked + {key} == s.asked;
    } else {
      assert |s.asked + {key}| == |s.asked| + 1;
    }
  }

  lemma NextKeepsSeen(s: Auth, maxQueue: int, e: Event)
    requires SeenOk(s)
    ensures SeenOk(Next(s, maxQueue, e))
  {
    if e.Challenged? { RememberKeepsSeen(s, e.key); }
  }

  /**
   A challenge is marked as a retry only for a key that was asked for since the last clear, and always so while no
   more than 64 different keys were asked for.
   */
  lemma {:induction false} RetriesWereAsked(s: Auth, maxQueue: int, events: seq<Event>, key: Key)
    requires SeenOk(s)
    ensures var t := Run(s, maxQueue, events);
            (IsRetry(t, key) ==> key in t.asked) && (|t.asked| <= MAX_SEEN ==> (IsRetry(t, key) <==> key in t.asked))
    decreases |events|
  {
    if events != [] {
      NextKeepsSeen(s, maxQueue, events[0]);
      RetriesWereAsked(Next(s, maxQueue, events[0]), maxQueue, events[1..], key);
    }
  }

  // ---- the controller as the source updates it ----

  class AuthController {
    const maxQueue: int
    var queue: seq<nat>
    var running: bool
    var disposed: bool
    var seen: set<Key>
    /** The settled flags of the resolver calls that are not settled yet. */
    var unsettled: set<nat>
    ghost var asked: set<Key>
    ghost var next: nat
    ghost var answered: multiset<nat>
    ghost var given: map<nat, Credentials>

    ghost function Model(): Auth
      reads this
    {
      Auth(queue, running, disposed, seen, asked, next, unsettled, answered, given)
    }

    constructor (max: int)
      ensures maxQueue == max && Model() == START
    {
      maxQueue, queue, running, disposed, seen, unsettled := max, [], false, false, {}, {};
      asked, next, answered, given := {}, 0, multiset{}, map[];
    }

    ghost method Callback(challenge: nat, credentials: Option<Credentials>)
      modifies this`answered, this`given
      ensures answered == old(answered) + multiset{challenge}
      ensures given == if credentials.Some? then old(given)[challenge := credentials.value] else old(given)
    {
      answered := answered + multiset{challenge};
      if credentials.Some? { given := given[challenge := credentials.value]; }
    }

    method StartNext()
      modifies this
      ensures Model() == Drain(old(Model()))
    {
      if running || disposed || queue == [] { return; }
      var pending := queue[0];
      queue, running := queue[1..], true;
      unsettled := unsettled + {pending};
    }

    method FinishChallenge(challenge: nat, credentials: Option<Credentials>)
      modifies this
      ensures Model() == Finish(old(Model()), challenge, credentials)
      ensures challenge !in old(unsettled) ==> Model() == old(Model())
      ensures challenge in old(unsettled) ==> answered == old(answered) + multiset{challenge}
      ensures disposed ==> given == old(given)
    {
      if challenge !in unsettled { return; }
      unsettled := unsettled - {challenge};
      Callback(challenge, if disposed then None else credentials);
      running := false;
      StartNext();
    }

    method RememberKey(key: Key) returns (retry: bool)
      modifies this`seen, this`asked
      ensures Model() == Remember(old(Model()), key) && (retry <==> key in old(seen))
    {
      retry := key in seen;
      if |seen| < MAX_SEEN { seen := seen + {key}; }
      asked := asked + {key};
    }

    method HandleLogin(challenge: nat, valid: bool, key: Key) returns (retry: bool)
      requires challenge == next
      modifies this
      ensures Model() == Login(old(Model()), maxQueue, valid, key)
      ensures retry <==> !Refuses(old(Model()), maxQueue, valid) && IsRetry(old(Model()), key)
    {
      next := next + 1;
      if disposed || !valid || |queue| >= maxQueue || (running && |queue| >= maxQueue - 1) {
        Callback(challenge, None);
        return false;
      }
      queue := queue + [challenge];
      retry := RememberKey(key);
      StartNext();
    }

    method ClearAll()
      modifies this
      ensures Model() == Clear(old(Model()))
    {
      while queue != []
        invariant running == old(running) && disposed == old(disposed) && seen == old(seen) && asked == old(asked)
        invariant next == old(next) && unsettled == old(unsettled) && given == old(given)
        invariant answered + multiset(queue) == old(answered) + multiset(old(queue))
        decreases |queue|
      {
        assert queue == [queue[0]] + queue[1..];
        Callback(queue[0], None);
        queue := queue[1..];
      }
      seen, asked := {}, {};
    }

    method DisposeAll()
      modifies this
      ensures Model() == Dispose(old(Model())) && disposed && given == old(given)
    {
      if disposed { return; }
      disposed := true;
      ClearAll();
    }
  }
}
