/** What the update controller does, in every state that some run reaches. */
module UpdateEffects {
  import opened Wrappers
  import opened Versions
  import opened UpdateControllers

  ghost predicate Reachable(c: Config, s: Update) {
    exists events :: Run(c, INITIAL, events) == s
  }

  lemma ReachableInv(c: Config, s: Update)
    requires Reachable(c, s)
    ensures Inv(c, s)
  {
    var events :| Run(c, INITIAL, events) == s;
    RunKeepsInv(c, INITIAL, events);
  }

  predicate Readable(current: string, v: string) {
    Accepted(v) && Accepted(current)
  }

  predicate IsNewer(current: string, v: string) {
    Readable(current, v) && Compare(Parse(v), Parse(current)) > 0
  }

  // ---- checking ----

  /** A check begins unless one is under way, a download is or the controller is disposed; it keeps what was known. */
  lemma CheckBegins(c: Config, s: Update, interactive: bool)
    requires !s.disposed && s.phase != Downloading && s.phase != Ready
    ensures var s' := Next(c, s, CheckAsked(interactive));
            && (s'.surfaceErrors <==> s.surfaceErrors || interactive)
            && (s.check == Absent ==>
                  s' == s.(phase := Checking, check := InFlight, manual := if c.native then None else s.manual, surfaceErrors := s'.surfaceErrors))
            && (s.check != Absent ==> s' == s.(surfaceErrors := s'.surfaceErrors))
  {
  }

  lemma NoCheckDuringADownload(c: Config, s: Update, interactive: bool)
    requires s.disposed || s.phase == Downloading || s.phase == Ready
    ensures Next(c, s, CheckAsked(interactive)) == s
  {
  }

  /** The fields a check may change. */
  predicate OnlyAnswered(s: Update, s': Update) {
    s' == s.(phase := s'.phase, available := s'.available, manual := s'.manual, check := Settled)
  }

  /** A newer version is offered: natively for download, otherwise as the official asset. */
  lemma NewerVersionIsOffered(current: string, native: bool, s: Update, v: string)
    requires Reachable(ConfigFor(current, native), s) && s.check == InFlight && IsNewer(current, v)
    ensures var s' := Next(ConfigFor(current, native), s, CheckFinished(Found(v)));
            && OnlyAnswered(s, s') && s'.available == Some(v)
            && (native ==> s'.phase == Available && s'.manual == s.manual)
            && (!native ==> s'.phase == Manual && s'.manual == Some(v))
  {
  }

  /** A version that is not newer, or natively no version at all, means that the running one is up to date. */
  lemma OlderVersionIsUpToDate(current: string, native: bool, s: Update, a: Answer)
    requires Reachable(ConfigFor(current, native), s) && s.check == InFlight
    requires (a.Found? && Readable(current, a.version) && !IsNewer(current, a.version)) || (native && a.Nothing?)
    ensures var s' := Next(ConfigFor(current, native), s, CheckFinished(a));
            && OnlyAnswered(s, s') && s'.phase == UpToDate && s'.available.None?
            && s'.manual == if native then s.manual else None
  {
  }

  /** A check that fails, or finds a version that cannot be read, is an error if someone asked and else forgotten. */
  lemma FailedCheckIsShownIfAsked(current: string, native: bool, s: Update, a: Answer)
    requires Reachable(ConfigFor(current, native), s) && s.check == InFlight
    requires a.Error? || (a.Found? && !Readable(current, a.version)) || (!native && a.Nothing?)
    ensures var s' := Next(ConfigFor(current, native), s, CheckFinished(a));
            && OnlyAnswered(s, s') && s'.phase == (if s.surfaceErrors then Failed else Idle)
            && s'.available.None? && s'.manual == s.manual
  {
  }

  /** After a check the next one can begin, and errors are shown again only if someone asks. */
  lemma CheckIsCleared(c: Config, s: Update)
    requires s.check == Settled
    ensures Next(c, s, CheckCleared) == s.(check := Absent, surfaceErrors := false)
  {
  }

  // ---- downloading and installing ----

  /** An available version is downloaded, natively; the recorded manual one is opened in the browser. */
  lemma OfferIsTaken(c: Config, s: Update)
    requires Reachable(c, s) && !s.disposed && s.download == Absent
    ensures s.phase == Available ==>
              Next(c, s, DownloadAsked) == s.(phase := Downloading, download := InFlight, opening := false)
    ensures s.phase == Manual ==>
              && s.available.Some?
              && Next(c, s, DownloadAsked) == s.(download := InFlight, opening := true, visited := s.visited + [s.available.value])
    ensures s.phase != Available && s.phase != Manual ==> Next(c, s, DownloadAsked) == s
  {
    ReachableInv(c, s);
  }

  /** From a newer version to its download, in every reachable state with a check in flight and no download. */
  lemma NewerVersionCanBeDownloaded(current: string, native: bool, s: Update, v: string)
    requires Reachable(ConfigFor(current, native), s) && s.check == InFlight && s.download == Absent && !s.disposed
    requires IsNewer(current, v)
    ensures var c := ConfigFor(current, native);
            var s' := Next(c, Next(c, s, CheckFinished(Found(v))), DownloadAsked);
            && (native ==> s'.phase == Downloading && s'.available == Some(v))
            && (!native ==> s'.visited == s.visited + [v])
  {
    var c := ConfigFor(current, native);
    NewerVersionIsOffered(current, native, s, v);
    ReachableNext(c, s, CheckFinished(Found(v)));
    OfferIsTaken(c, Next(c, s, CheckFinished(Found(v))));
  }

  lemma ReachableNext(c: Config, s: Update, e: Event)
    requires Reachable(c, s)
    ensures Reachable(c, Next(c, s, e))
  {
    var events :| Run(c, INITIAL, events) == s;
    RunAppend(c, INITIAL, events, e);
    assert Run(c, INITIAL, events + [e]) == Next(c, s, e);
  }

  lemma {:induction false} RunAppend(c: Config, s: Update, events: seq<Event>, e: Event)
    ensures Run(c, s, events + [e]) == Next(c, Run(c, s, events), e)
    decreases |events|
  {
    if events == [] {
      assert [e][1..] == [] && events + [e] == [e];
      assert Run(c, Next(c, s, e), []) == Next(c, s, e);
    } else {
      assert (events + [e])[1..] == events[1..] + [e];
      RunAppend(c, Next(c, s, events[0]), events[1..], e);
    }
  }

  /** A finished download is ready to install, unless a listener changed the phase first; a failed one is an error. */
  lemma DownloadEnds(c: Config, s: Update, ok: bool)
    requires s.download == InFlight
    ensures Next(c, s, DownloadFinished(ok)) ==
            s.(download := Settled,
               phase := if !ok then Failed else if !s.opening && s.phase == Downloading then Ready else s.phase)
    ensures Next(c, s.(download := Settled), DownloadCleared) == s.(download := Absent)
  {
  }

  /** The updater's own report of the recorded version makes it ready, that of another version is an error. */
  lemma ReportOfTheUpdater(c: Config, s: Update, v: string)
    requires !s.disposed && s.phase == Downloading
    ensures Next(c, s, UpdaterDownloaded(v)) == s.(phase := if s.available == Some(v) then Ready else Failed)
    ensures Next(c, s, UpdaterFailed) == s.(phase := Failed)
  {
  }

  /** A ready version is handed to the installer; if that does not start, it is an error. */
  lemma ReadyVersionIsInstalled(c: Config, s: Update, starts: bool)
    requires Reachable(c, s) && !s.disposed && s.phase == Ready
    ensures s.available.Some?
    ensures Next(c, s, RestartAsked(starts)) ==
            s.(installed := s.installed + [s.available.value], phase := if starts then Ready else Failed)
  {
    ReachableInv(c, s);
  }

  /** What is not under way neither ends nor is cleared, and a second download does not begin. */
  lemma NothingUnderWay(c: Config, s: Update, a: Answer, ok: bool)
    ensures s.check != InFlight ==> Next(c, s, CheckFinished(a)) == s
    ensures s.check != Settled ==> Next(c, s, CheckCleared) == s
    ensures s.download != Absent ==> Next(c, s, DownloadAsked) == s
    ensures s.download != InFlight ==> Next(c, s, DownloadFinished(ok)) == s
    ensures s.download != Settled ==> Next(c, s, DownloadCleared) == s
  {
  }

  /** The updater is listened to only while it downloads; until the restart it may still report an error. */
  lemma UpdaterIsHeard(c: Config, s: Update, v: string)
    ensures s.phase != Downloading ==> Next(c, s, UpdaterDownloaded(v)) == s
    ensures s.phase == Ready && !s.disposed ==> Next(c, s, UpdaterFailed) == s.(phase := Failed)
    ensures s.phase != Downloading && s.phase != Ready ==> Next(c, s, UpdaterFailed) == s
  {
  }

  /** A disposal keeps the state as it is, and no check begins after it. */
  lemma DisposalStopsChecks(c: Config, s: Update, interactive: bool)
    ensures var s' := Next(c, s, Disposed); s'.disposed && s' == s.(disposed := true) && Next(c, s', CheckAsked(interactive)) == s'
  {
  }

  /** After disposal nothing begins any more. */
  lemma DisposedBeginsNothing(c: Config, s: Update, interactive: bool, v: string, starts: bool)
    requires s.disposed
    ensures Next(c, s, CheckAsked(interactive)) == Next(c, s, DownloadAsked) == Next(c, s, UpdaterFailed) == s
    ensures Next(c, s, UpdaterDownloaded(v)) == Next(c, s, RestartAsked(starts)) == s
  {
  }
}
