/**
 The update controller (apps/desktop/src/update-controller.ts): a phase machine with at most one check and
 one download in flight. The native updater, the release service, the browser that opens a download and
 the order in which their answers arrive belong to the environment.
 */
module UpdateControllers {
  import opened Wrappers
  import opened Versions

  datatype Phase = Idle | Checking | UpToDate | Available | Manual | Downloading | Ready | Failed

  /** A promise field: settled promises stay in it until their clear callback has run. */
  datatype Flight = Absent | InFlight | Settled

  /** How a version found by a check stands to the running one. */
  datatype Verdict = Unreadable | NotNewer | Newer

  /**
   Whether the installation can update itself, which versions can be compared with the running one, and
   which of those are newer.
   */
  datatype Config = Config(native: bool, readable: iset<string>, newer: iset<string>)

  function Judge(c: Config, v: string): Verdict {
    if v !in c.readable then Unreadable else if v in c.newer then Newer else NotNewer
  }

  /** The judgement compareVersions gives. */
  ghost function ConfigFor(current: string, native: bool): Config {
    Config(native, iset v | Accepted(v) && Accepted(current),
           iset v | Accepted(v) && Accepted(current) && Compare(Parse(v), Parse(current)) > 0)
  }

  datatype Update = Update(
    phase: Phase,
    available: Option<string>,
    manual: Option<string>,      // the version whose official asset manualUrl names
    check: Flight,
    download: Flight,
    opening: bool,               // the download in flight only opens the browser
    surfaceErrors: bool,
    disposed: bool,
    visited: seq<string>,         // versions whose asset was opened in the browser
    installed: seq<string>       // versions for which the installer was started
  )

  const INITIAL := Update(Idle, None, None, Absent, Absent, false, false, false, [], [])

  /** What a check came back with. */
  datatype Answer = Nothing | Found(version: string) | Error

  function Check(c: Config, s: Update, interactive: bool): Update {
    if s.disposed || s.phase == Downloading || s.phase == Ready then s
    else
      var asked := if interactive then s.(surfaceErrors := true) else s;
      if s.check != Absent then asked
      else asked.(phase := Checking, check := InFlight, manual := if c.native then None else s.manual)
  }

  function CheckRejected(s: Update): Update {
    s.(phase := if s.surfaceErrors then Failed else Idle, available := None)
  }

  /** checkNative and checkManual after their await, with the catch handler. */
  function CheckAnswered(c: Config, s: Update, a: Answer): Update {
    match a
    case Error => CheckRejected(s)
    case Nothing => if c.native then s.(phase := UpToDate, available := None) else CheckRejected(s)
    case Found(v) =>
      match Judge(c, v)
      case Unreadable => CheckRejected(s)
      case NotNewer => s.(phase := UpToDate, available := None, manual := if c.native then s.manual else None)
      case Newer =>
        if c.native then s.(phase := Available, available := Some(v))
        else s.(phase := Manual, available := Some(v), manual := Some(v))
  }

  function FinishCheck(c: Config, s: Update, a: Answer): Update {
    if s.check != InFlight then s else CheckAnswered(c, s, a).(check := Settled)
  }

  function ClearCheck(s: Update): Update {
    if s.check == Settled then s.(check := Absent, surfaceErrors := false) else s
  }

  function Download(c: Config, s: Update): Update {
    if s.disposed || s.download != Absent then s
    else if s.phase == Manual && s.manual.Some? then
      s.(download := InFlight, opening := true, visited := s.visited + [s.manual.value])
    else if s.phase == Available && c.native then s.(phase := Downloading, download := InFlight, opening := false)
    else s
  }

  function FinishDownload(s: Update, ok: bool): Update {
    if s.download != InFlight then s
    else
      var done := s.(download := Settled);
      if !ok then done.(phase := Failed)
      else if !s.opening && s.phase == Downloading then done.(phase := Ready)
      else done
  }

  function ClearDownload(s: Update): Update {
    if s.download == Settled then s.(download := Absent) else s
  }

  function NativeError(s: Update): Update {
    if s.disposed || (s.phase != Downloading && s.phase != Ready) then s else s.(phase := Failed)
  }

  /** An unreadable version is never the recorded one, so the two tests of the listener are one. */
  function NativeDownloaded(s: Update, v: string): Update {
    if s.disposed || s.phase != Downloading then s
    else if s.available != Some(v) then NativeError(s)
    else s.(phase := Ready)
  }

  function Restart(c: Config, s: Update, starts: bool): Update {
    if s.disposed || !c.native || s.phase != Ready then s
    else
      var asked := s.(installed := s.installed + (if s.available.Some? then [s.available.value] else [""]));
      if starts then asked else NativeError(asked)
  }

  datatype Event =
    | CheckAsked(interactive: bool)
    | CheckFinished(answer: Answer)
    | CheckCleared
    | DownloadAsked
    | DownloadFinished(ok: bool)
    | DownloadCleared
    | UpdaterFailed
    | UpdaterDownloaded(version: string)
    | RestartAsked(starts: bool)
    | Disposed

  function Next(c: Config, s: Update, e: Event): Update {
    match e
    case CheckAsked(interactive) => Check(c, s, interactive)
    case CheckFinished(a) => FinishCheck(c, s, a)
    case CheckCleared => ClearCheck(s)
    case DownloadAsked => Download(c, s)
    case DownloadFinished(ok) => FinishDownload(s, ok)
    case DownloadCleared => ClearDownload(s)
    case UpdaterFailed => NativeError(s)
    case UpdaterDownloaded(v) => NativeDownloaded(s, v)
    case RestartAsked(starts) => Restart(c, s, starts)
    case Disposed => s.(disposed := true)
  }

  function Run(c: Config, s: Update, events: seq<Event>): Update
    decreases |events|
  {
    if events == [] then s else Run(c, Next(c, s, events[0]), events[1..])
  }

  // ---- invariant ----

  predicate AllNewer(c: Config, versions: seq<string>) {
    forall i :: 0 <= i < |versions| ==> versions[i] in c.newer
  }

  predicate Inv(c: Config, s: Update) {
    && (c.native ==> s.phase != Manual)
    && (!c.native ==> !s.phase.Available? && !s.phase.Downloading? && !s.phase.Ready?)
    && (s.available.Some? ==> s.available.value in c.newer)
    && (s.manual.Some? ==> s.manual.value in c.newer)
    && (s.phase.Available? || s.phase.Manual? || s.phase.Downloading? || s.phase.Ready? ==> s.available.Some?)
    && (s.phase == Manual ==> s.manual == s.available)
    // a check in flight cannot overwrite a download: the two never run over one another
    && (s.check == InFlight ==> s.phase.Checking? || s.phase.Failed?)
    && AllNewer(c, s.visited) && AllNewer(c, s.installed)
  }

  lemma NextKeepsInv(c: Config, s: Update, e: Event)
    requires Inv(c, s)
    ensures Inv(c, Next(c, s, e))
  {
    match e
    case CheckFinished(a) => AnswerKeepsInv(c, s, a);
    case DownloadAsked => DownloadKeepsInv(c, s);
    case RestartAsked(starts) => RestartKeepsInv(c, s, starts);
    case _ =>
  }

  lemma AnswerKeepsInv(c: Config, s: Update, a: Answer)
    requires Inv(c, s)
    ensures Inv(c, FinishCheck(c, s, a))
  {
    match a
    case Found(v) => if s.check == InFlight { OfferKeepsInv(c, s, v); }
    case _ =>
  }

  lemma OfferKeepsInv(c: Config, s: Update, v: string)
    requires Inv(c, s) && s.check == InFlight
    ensures Inv(c, FinishCheck(c, s, Found(v)))
  {
    match Judge(c, v)
    case Unreadable => assert FinishCheck(c, s, Found(v)) == CheckRejected(s).(check := Settled);
    case NotNewer => assert FinishCheck(c, s, Found(v)).phase == UpToDate;
    case Newer => assert v in c.newer;
  }

  lemma DownloadKeepsInv(c: Config, s: Update)
    requires Inv(c, s)
    ensures Inv(c, Download(c, s))
  {
  }

  lemma RestartKeepsInv(c: Config, s: Update, starts: bool)
    requires Inv(c, s)
    ensures Inv(c, Restart(c, s, starts))
  {
  }

  lemma {:induction false} RunKeepsInv(c: Config, s: Update, events: seq<Event>)
    requires Inv(c, s)
    ensures Inv(c, Run(c, s, events))
    decreases |events|
  {
    if events != [] {
      NextKeepsInv(c, s, events[0]);
      RunKeepsInv(c, Next(c, s, events[0]), events[1..]);
    }
  }

  // ---- the promises ----

  /** Controllers that update natively never ask for a manual download, and the others never install. */
  lemma PhasesByEligibility(c: Config, events: seq<Event>)
    ensures c.native ==> Run(c, INITIAL, events).phase != Manual
    ensures !c.native ==> Run(c, INITIAL, events).phase !in {Available, Downloading, Ready}
    ensures !c.native ==> Run(c, INITIAL, events).installed == []
  {
    RunKeepsInv(c, INITIAL, events);
    if !c.native { NeverInstalls(c, INITIAL, events); }
  }

  lemma {:induction false} NeverInstalls(c: Config, s: Update, events: seq<Event>)
    requires !c.native
    ensures Run(c, s, events).installed == s.installed
    decreases |events|
  {
    if events != [] { NeverInstalls(c, Next(c, s, events[0]), events[1..]); }
  }

  /** Ready is entered only from Downloading, and Downloading only from Available. */
  lemma PhaseOrder(c: Config, events: seq<Event>, e: Event)
    ensures var s := Run(c, INITIAL, events);
            && (Next(c, s, e).phase == Ready && s.phase != Ready ==> s.phase == Downloading)
            && (Next(c, s, e).phase == Downloading && s.phase != Downloading ==> s.phase == Available)
  {
    RunKeepsInv(c, INITIAL, events);
  }

  /**
   Whatever version is recorded, opened in the browser or handed to the installer is accepted and strictly
   newer than the running one.
   */
  lemma OnlyNewerReleases(current: string, native: bool, events: seq<Event>, v: string)
    requires var s := Run(ConfigFor(current, native), INITIAL, events);
             s.available == Some(v) || v in s.visited || v in s.installed
    ensures Accepted(v) && Accepted(current) && Compare(Parse(v), Parse(current)) == 1
  {
    var c := ConfigFor(current, native);
    RunKeepsInv(c, INITIAL, events);
    assert v in c.newer;
  }

  // ---- the controller's fields ----

  class DesktopUpdateController {
    const currentVersion: string
    const nativeEligible: bool
    var phase: Phase
    var availableVersion: Option<string>
    var manualUrl: Option<string>
    var checkPromise: Flight
    var downloadPromise: Flight
    var opening: bool
    var surfaceCheckErrors: bool
    var disposed: bool
    ghost var visited: seq<string>
    ghost var installed: seq<string>

    ghost function Model(): Update
      reads this
    {
      Update(phase, availableVersion, manualUrl, checkPromise, downloadPromise, opening, surfaceCheckErrors, disposed,
             visited, installed)
    }

    ghost function Options(): Config {
      ConfigFor(currentVersion, nativeEligible)
    }

    constructor (version: string, native: bool)
      ensures currentVersion == version && nativeEligible == native && Model() == INITIAL
    {
      currentVersion, nativeEligible := version, native;
      phase, availableVersion, manualUrl, checkPromise, downloadPromise := Idle, None, None, Absent, Absent;
      opening, surfaceCheckErrors, disposed, visited, installed := false, false, false, [], [];
    }

    method SetState(next: Phase, version: Option<string>)
      modifies this`phase, this`availableVersion
      ensures phase == next && availableVersion == version
    {
      phase, availableVersion := next, version;
    }

    method CheckForUpdate(interactive: bool)
      modifies this
      ensures Model() == Check(Options(), old(Model()), interactive)
      ensures old(phase) == Downloading || old(phase) == Ready || disposed ==> Model() == old(Model())
      ensures old(checkPromise) != Absent ==> checkPromise == old(checkPromise) && phase == old(phase)
    {
      if disposed || phase == Downloading || phase == Ready { return; }
      if interactive { surfaceCheckErrors := true; }
      if checkPromise != Absent { return; }
      SetState(Checking, availableVersion);
      if nativeEligible { manualUrl := None; }
      checkPromise := InFlight;
    }

    method Reject()
      modifies this`phase, this`availableVersion
      ensures Model() == CheckRejected(old(Model()))
    {
      if surfaceCheckErrors { SetState(Failed, None); } else { SetState(Idle, None); }
    }

    method JudgeVersion(v: string) returns (verdict: Verdict)
      ensures verdict == Judge(Options(), v)
    {
      var order := CompareVersions(v, currentVersion);
      verdict := if order.None? then Unreadable else if order.value <= 0 then NotNewer else Newer;
    }

    /** The end of checkNative and checkManual when a version was found. */
    method Offer(v: string, verdict: Verdict, ghost c: Config)
      requires checkPromise == InFlight && c.native == nativeEligible && Judge(c, v) == verdict
      modifies this
      ensures Model() == FinishCheck(c, old(Model()), Found(v))
    {
      checkPromise := Settled;
      match verdict
      case Unreadable => Reject();
      case NotNewer =>
        if !nativeEligible { manualUrl := None; }
        SetState(UpToDate, None);
      case Newer =>
        if nativeEligible {
          SetState(Available, Some(v));
        } else {
          manualUrl := Some(v);
          SetState(Manual, Some(v));
        }
    }

    method SettleCheck(a: Answer)
      requires checkPromise == InFlight
      modifies this
      ensures Model() == FinishCheck(Options(), old(Model()), a)
    {
      match a
      case Error =>
        checkPromise := Settled;
        Reject();
      case Nothing =>
        checkPromise := Settled;
        if nativeEligible { SetState(UpToDate, None); } else { Reject(); }
      case Found(v) =>
        var verdict := JudgeVersion(v);
        Offer(v, verdict, Options());
    }

    method DownloadUpdate()
      modifies this
      ensures Model() == Download(Options(), old(Model()))
      ensures phase != old(phase) ==> phase == Downloading && old(phase) == Available && nativeEligible
      ensures visited != old(visited) ==> old(phase) == Manual && visited == old(visited) + [old(manualUrl).value]
    {
      if disposed || downloadPromise != Absent { return; }
      if phase == Manual && manualUrl.Some? {
        visited := visited + [manualUrl.value];
        downloadPromise, opening := InFlight, true;
      } else if phase == Available && nativeEligible {
        SetState(Downloading, availableVersion);
        downloadPromise, opening := InFlight, false;
      }
    }

    method SettleDownload(ok: bool)
      requires downloadPromise == InFlight
      modifies this
      ensures Model() == FinishDownload(old(Model()), ok)
      ensures !ok ==> phase == Failed
      ensures ok && phase != old(phase) ==> phase == Ready && old(phase) == Downloading
    {
      downloadPromise := Settled;
      if !ok { SetState(Failed, availableVersion); }
      else if !opening && phase == Downloading { SetState(Ready, availableVersion); }
    }

    method OnNativeError()
      modifies this`phase, this`availableVersion
      ensures Model() == NativeError(old(Model()))
      ensures phase != old(phase) ==> phase == Failed && (old(phase) == Downloading || old(phase) == Ready)
    {
      if disposed || (phase != Downloading && phase != Ready) { return; }
      SetState(Failed, availableVersion);
    }

    method OnNativeDownloaded(v: string)
      modifies this`phase, this`availableVersion
      ensures Model() == NativeDownloaded(old(Model()), v)
      ensures phase == Ready && old(phase) != Ready ==> old(phase) == Downloading && availableVersion == Some(v)
    {
      if disposed || phase != Downloading { return; }
      if availableVersion != Some(v) {
        OnNativeError();
        return;
      }
      SetState(Ready, Some(v));
    }

    method RestartToUpdate(starts: bool)
      modifies this
      ensures Model() == Restart(Options(), old(Model()), starts)
      ensures installed != old(installed) ==> old(phase) == Ready && nativeEligible && !disposed
    {
      if disposed || !nativeEligible || phase != Ready { return; }
      installed := installed + (if availableVersion.Some? then [availableVersion.value] else [""]);
      if !starts { OnNativeError(); }
    }
  }
}
