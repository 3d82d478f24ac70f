# Verified controllers of the T4 desktop application

This project models the stateful core of the desktop application, and the Markdown splitter of its iOS companion, in
Dafny and proves what that code promises. `dafny verify dfyconfig.toml` checks everything.

Asynchronous code becomes a state machine whose steps are the stretches between two awaits. A run is any sequence of
steps, so every theorem about runs covers every interleaving. The network, the file system, timers and native dialogs
are events that may come at any time. Only a native crash event does not come between a settled promise and its
continuation. Where a run is to show that something can happen, nothing at all comes in between, and clients keep to
their own state machine. Beside each machine stands a class with the fields of the source. Each of its methods is proved
equal to a step of the machine, and loops of the source are loops with invariants. The `Effects` modules say what each
kind of step does, in every state that some run reaches, and the `Shapes` modules which texts are accepted. The table
below names those methods that loop, leave other targets alone or promise their caller more than that.

| files | what they model |
|---|---|
| `BrowserSurfaces`, `TabModel`, `TabInvariants`, `TabTheorems`, `TabEffects`, `BrowserRuntimes` | browser tabs: visibility, indexes, profile counts, crash recovery |
| `TargetModel`, `TargetTheorems`, `TargetEffects`, `TargetManagers` | connection targets and their generation fence |
| `TargetQueues`, `TargetQueueTheorems`, `TargetQueueEffects`, `TargetOverlaps`, `TargetExamples` | the operation queues of a target, and what a removal does to them |
| `ServiceQueues`, `ServiceEffects` | the queue of service operations with coalesced inspections |
| `Binary64`, `Versions`, `VersionOrder`, `VersionHyphens`, `VersionShapes`, `VersionExamples`, `UpdateControllers`, `UpdateEffects` | version comparison and the phases of an update |
| `Markdown`, `MarkdownTheorems`, `MarkdownLayout`, `MarkdownWriting` | splitting a message into prose and code |
| `ProfileLabels`, `LabelWords`, `ProfileIds`, `ProfileIdShapes`, `LocalProfiles`, `LocalProfileTheorems`, `LocalProfileRegistries`, `ProfileEffects`, `ProfileExamples` | the registry of local profiles |
| `Dialogs`, `DialogEffects`, `DialogSurfaces`, `AuthQueues`, `AuthEffects` | queues of native dialogs and of HTTP Basic challenges |
| `Downloads`, `DownloadTheorems`, `DownloadEffects`, `DownloadControllers` | downloads and those who wait for them |
| `SessionRecords`, `SessionShapes`, `SessionStores`, `BrowserSessionStores`, `SessionEffects`, `SessionExamples` | saved browser sessions |
| `RouteExpressions`, `NetworkRoutes`, `RouteEffects` | route patterns, their regular expressions, and the route table |
| `Bounding`, `BoundingTheorems`, `BoundingEffects`, `Utf8`, `Utf16`, `TextShapes` | bounding of strings and object graphs |
| `ElementRefs`, `ElementEffects` | references to page elements |
| `Texts`, `Wrappers` | splitting and joining of text, the optional value |

## Where the code does less than one might expect

- A removal of a target deletes the entry of its queue, whatever is still waiting there. A connect or pairing requested while a removal is outstanding can then overlap with a later one. One of them installs its client over the other's, which is never closed (`TargetExamples.ClientAbandonedAfterARemoval`, `TargetOverlaps.NeverClosed`; `TargetOverlaps.ClientsAreClosedExactlyWhenCareful` says exactly when). This is for a registry of targets that may answer lookups in any order, and from a record that has changed since. The registry of packages/remote/src/registry.ts answers them in order; with it two such connects are enough (`TargetExamples.TwoHastyConnectsFailInOrder`).
- `compareVersions` ignores everything after a second hyphen, is not transitive on numbers with leading zeros, and confuses numbers above 2^53 (`VersionExamples`; `VersionHyphens.AgreesExactlyUnlessMisread` says exactly when it parts from Semantic Versioning).
- A profile label whose cut at 128 code units falls behind a space is refused by the store, so such an add or update fails (`ProfileExamples.LongTitleIsRefused`; `LocalProfileRegistries.WhenAddIsAccepted` says exactly when).
- The 65th removal of a profile fails, because the list of removed profiles is full (`ProfileExamples.SixtyFifthRemovalIsRefused`; `LocalProfileRegistries.WhenRemoveIsAccepted` says exactly when).
- An upsert into a full session store can drop the very record it was given, without an error (`SessionExamples.AcceptedAndDropped`; `SessionStores.UpsertStoresUnlessFull` says exactly when).
- Installing a surface again leaves the old, already answered dialog open beside a new one (`DialogSurfaces.TwoDialogsOfOneSurface`; `DialogSurfaces.InstallAddsOneDialog` says exactly when).
- The expression of a route pattern is a textbook glob only on text without line terminators (`RouteExpressions.PlainForEveryPatternExactlyOnOneLine`). A request cannot show this, since a serialised URL holds none.

## Model

| member | source | states |
|---|---|---|
| BrowserSurfaces.BrowserSurface.RendererGone | apps/desktop/src/browser-surface.ts:334-344 | a crash is reported exactly for the view that is current, by contents and generation |
| BrowserSurfaces.BrowserSurface.ReplaceAfterCrash | apps/desktop/src/browser-surface.ts:673-693 | only the view that is still shown is replaced, by the next generation; otherwise nothing changes |
| BrowserSurfaces.BrowserSurface.Discard | apps/desktop/src/browser-surface.ts:700-708 | only an open, hidden, idle surface gives up its view |
| BrowserRuntimes.BrowserProfileRegistry.Mark | apps/desktop/src/browser-profiles.ts:287-291 | the count of an authenticated profile rises by one and no other count changes; isolated profiles are not counted |
| BrowserRuntimes.BrowserProfileRegistry.Unmark | apps/desktop/src/browser-profiles.ts:292-297 | the count of a profile in use falls by one, its entry is gone at zero, and no other count changes |
| BrowserRuntimes.FindLastOwned | apps/desktop/src/browser-runtime.ts:438-453 | the last listed surface of the owner is found, and none only if the owner has none listed |
| BrowserRuntimes.BrowserRuntime.ActivateSurface | apps/desktop/src/browser-runtime.ts:651-662 | the loop hides every other surface of every owner and shows the requested one, which becomes the owner's active one; a surface of another owner is refused |
| BrowserRuntimes.BrowserRuntime.RemoveSurface | apps/desktop/src/browser-runtime.ts:689-717 | the surface leaves every index, its profile count falls and the owner's active surface is chosen anew |
| TabInvariants.RunKeepsInv | apps/desktop/src/browser-runtime.ts:211-717 | every step of every run keeps the index, visibility, counting and recovery invariants |
| TabTheorems.OneAttachedTab | apps/desktop/src/browser-runtime.ts:651-662 | in every reachable state at most one surface across all owners is visible, and an attached view belongs to an open, visible surface that holds a view |
| TabTheorems.IndexesHoldTheSameIds | apps/desktop/src/browser-runtime.ts:564-567 | surface map, owner map and ordered list hold the same ids, each once |
| TabTheorems.ProfileCountIsOpenSurfaces | apps/desktop/src/browser-profiles.ts:287-304 | each authenticated profile's in-use count is the number of its open surfaces |
| TabTheorems.ActiveSurfaceIsOwn | apps/desktop/src/browser-runtime.ts:446-453 | activeSurface returns one of the caller's own surfaces exactly when it has any |
| TabTheorems.OwnerAndGenerationOverARun | apps/desktop/src/browser-runtime.ts:438-444 | over any run the owner of a surface never changes, generations never fall, and a different view has a greater generation |
| TabTheorems.ReplacedViewNeverReturns | apps/desktop/src/browser-surface.ts:673-693 | a view that was replaced is never current again, so a generation is replaced at most once |
| TabTheorems.ReplacedOnlyByItsOwnRecovery | apps/desktop/src/browser-runtime.ts:387-399 | a shown view is exchanged only by the recovery whose current or pending target it is, and by exactly one generation |
| TabTheorems.NoCrashLeftUnhandled | apps/desktop/src/browser-runtime.ts:407-436 | in every run at most one loop per surface, a pending target strictly newer than the current one, and no crashed current view without a loop that will replace it, throwing steps included |
| TabEffects.ActivatingShowsTheTab | apps/desktop/src/browser-runtime.ts:651-662 | in every reachable state activating an own surface shows it, attaches its view if the window takes it, hides and detaches every other surface, changes no view, generation or profile, and makes it the owner's active one |
| TabEffects.HidingTakesTheTabOff | apps/desktop/src/browser-runtime.ts:838-838 | a hidden surface is neither visible nor attached, keeps its view, and no other surface changes |
| TabEffects.CreatingAddsAHiddenTab | apps/desktop/src/browser-runtime.ts:538-572 | a new surface is open and hidden with a view of its own in generation 1, comes last in the list, and is the active one if its owner had none |
| TabEffects.ActiveSurfaceIs | apps/desktop/src/browser-runtime.ts:446-453 | the active surface of an owner is the one made active last, and without one the newest of those the owner has |
| TabEffects.ClosingForgetsTheTab | apps/desktop/src/browser-runtime.ts:689-717 | a closed surface is in no index, every other keeps its place and state, and no other active entry changes |
| TabEffects.ClosingActivatesTheNewest | apps/desktop/src/browser-runtime.ts:707-714 | when the active surface is closed the owner's newest remaining one is active, and none if none is left |
| TabEffects.DiscardingDropsAHiddenView | apps/desktop/src/browser-surface.ts:700-708 | a hidden surface loses its view and nothing else; a visible one is left alone |
| TabEffects.RestoringOpensAView | apps/desktop/src/browser-surface.ts:710-715 | a surface without a view gets a new one of the next generation, attached exactly if it is visible and the window takes it |
| TabEffects.CrashExchangesTheView | apps/desktop/src/browser-runtime.ts:407-436 | the crash of a shown view without a network controller exchanges it at once for one of the next generation, as visible as before |
| TabEffects.CrashEndsTheNetworkFirst | apps/desktop/src/browser-runtime.ts:574-581 | with a network controller that is dropped first and the view stays until its disposal is over |
| TabEffects.CrashDuringARecoveryIsRemembered | apps/desktop/src/browser-runtime.ts:407-420 | the crash of a newer view while a recovery is under way is remembered as pending |
| TabEffects.RecoveryExchangesItsTarget | apps/desktop/src/browser-runtime.ts:574-594 | once the network controller is gone the target is exchanged and no other surface changes |
| TabEffects.FailedExchangeLeavesNoView | apps/desktop/src/browser-surface.ts:673-693 | when no native view can be built the surface is left without one and the loop ends |
| TabEffects.ExchangedViewIsAdapted | apps/desktop/src/browser-runtime.ts:582-594 | after an exchange the surface gets its controllers back if its view is still live, otherwise the loop ends; nothing else changes |
| TabEffects.GoneTargetIsLeft | apps/desktop/src/browser-runtime.ts:574-581 | a target that is no longer shown is skipped and no view changes |
| TabEffects.CrashedViewIsExchanged | apps/desktop/src/browser-runtime.ts:407-436 | progress: in every reachable state a crashed view is exchanged within three resumptions of its loop when the native calls succeed |
| TargetManagers.DesktopTargetManager.CloseRuntimeNow | apps/desktop/src/target-manager.ts:454-462 | the generation moves on, the installed client is told to close, and runtime, attempt and welcome are dropped |
| TargetManagers.DesktopTargetManager.PublishState | apps/desktop/src/target-manager.ts:463-468 | a state is sent and remembered, except a repeated connecting |
| TargetManagers.DesktopTargetManager.InstallRuntime | apps/desktop/src/target-manager.ts:353-453 | the new client is installed with a new generation and its attempt is stored under it |
| TargetManagers.DesktopTargetManager.OnClientState | apps/desktop/src/target-manager.ts:422-426 | a state is forwarded only for a client of the current generation |
| TargetManagers.DesktopTargetManager.OnClientEvent | apps/desktop/src/target-manager.ts:417-421 | an event is forwarded, and a welcome kept, only for a client of the current generation |
| TargetManagers.DesktopTargetManager.OnClientReady | packages/client/src/omp-client-runtime.ts:1010-1012 | the state and the welcome of a client that gets ready reach the two listeners in one stretch |
| TargetManagers.DesktopTargetManager.OnAttemptSettled | apps/desktop/src/target-manager.ts:443-451 | a settled attempt clears only the attempt of its own generation |
| TargetManagers.DesktopTargetManager.ReuseRuntime | apps/desktop/src/target-manager.ts:353-400 | a ready client with the same capabilities is reused and its kept welcome sent once more, one on its way is joined, otherwise the runtime is closed; says whether the next await really waits |
| TargetTheorems.RunKeepsInv | apps/desktop/src/target-manager.ts:353-462 | every interleaving at the awaits keeps the generation fence |
| TargetTheorems.RuntimeAndAttemptAreCurrent | apps/desktop/src/target-manager.ts:353-453 | an installed runtime and a stored attempt carry the current generation, and only the installed client has it |
| TargetTheorems.GenerationNeverDecreases | apps/desktop/src/target-manager.ts:454-462 | a target's generation never decreases over any run |
| TargetTheorems.ForwardedComesFromTheCurrentClient | apps/desktop/src/target-manager.ts:417-431 | every step sends at most one notice, or the state and welcome of a client that gets ready, and an event, state or error only on behalf of the installed client |
| TargetTheorems.ConnectingIsSentOnce | apps/desktop/src/target-manager.ts:463-468 | connecting is never sent twice in a row |
| TargetTheorems.ReplayedWelcomeIsOwn | apps/desktop/src/target-manager.ts:362-367 | in every interleaving of any operations a replayed welcome was sent by the ready client itself, and the kept welcome of a ready installed client is its own |
| TargetEffects.ReadyClientIsReused | apps/desktop/src/target-manager.ts:360-366 | in every reachable state a connect that finds the ready client with its capabilities sends exactly that client's welcome once, changes nothing about the connection and ends |
| TargetEffects.ClientUnderWayIsJoined | apps/desktop/src/target-manager.ts:367-370 | a connect that finds a client on its way leaves it alone and tells nobody |
| TargetEffects.OtherClientIsClosed | apps/desktop/src/target-manager.ts:372-372 | any other client is closed first, and the connect waits for that exactly if there was one |
| TargetEffects.ClosedThenInstalled | apps/desktop/src/target-manager.ts:372-453 | after the close a new client with the capabilities asked for is installed in a new generation with an attempt of its own, and connecting is published |
| TargetEffects.DisconnectAndRemoveClose | apps/desktop/src/target-manager.ts:182-201 | a disconnect and a removal close the installed client at once and no other |
| TargetEffects.DisconnectIsPublished | apps/desktop/src/target-manager.ts:196-201 | after the close a disconnect publishes disconnected and ends |
| TargetEffects.RemovalForgetsTheState | apps/desktop/src/target-manager.ts:182-191 | after a removal the published state is forgotten, so the next connecting is sent again |
| TargetEffects.PairingBeginsOnRequest | apps/desktop/src/target-manager.ts:216-221 | a pairing goes to the client that asks for it, whose earlier credential no longer counts, and otherwise ends |
| TargetEffects.PairingReplacesOtherCapabilities | apps/desktop/src/target-manager.ts:203-215 | a pairing that finds other capabilities closes the client and connects anew |
| TargetEffects.PairingIsReported | apps/desktop/src/target-manager.ts:221-228 | a pairing is reported exactly when the credential of its client was stored |
| TargetEffects.CredentialMarksTheClient | apps/desktop/src/target-manager.ts:402-406 | a stored credential marks the installed client as paired if it is that client's, and no other |
| TargetEffects.StatesAreForwarded | apps/desktop/src/target-manager.ts:422-426 | the state of the installed client is published, that of another one is not |
| TargetEffects.ReadyIsConnected | apps/desktop/src/target-manager.ts:417-426 | the installed client that gets ready is shown as connected, and its welcome is kept and sent |
| TargetEffects.EventsAreForwarded | apps/desktop/src/target-manager.ts:417-431 | an event or error of the installed client is sent, and a welcome kept; another client is not heard |
| TargetEffects.AttemptIsForgotten | apps/desktop/src/target-manager.ts:432-451 | a settled attempt of the installed client is no longer stored, and its rejection is sent |
| TargetQueues.TargetQueueMap.EnqueueTarget | apps/desktop/src/target-manager.ts:57-70 | the operation is chained to the tail in its target's entry, or begins a new chain without one; other targets keep theirs |
| TargetQueueEffects.OperationBegins | apps/desktop/src/target-manager.ts:57-70 | an operation begins once, and only after the one it is chained to has settled |
| TargetQueueEffects.OperationGoesOn | apps/desktop/src/target-manager.ts:182-229 | an operation settles exactly when it has left the target, and only a finished removal deletes the entry |
| TargetQueues.TargetQueueMap.SettleOperation | apps/desktop/src/target-manager.ts:57-61 | a settled operation lets the next start; a successful removal deletes the entry of its target only |
| TargetQueueTheorems.ReplacedClientsAreClosed | apps/desktop/src/target-manager.ts:57-70 | in every run in which no connect or pairing is requested while a removal of the target is outstanding, at most one operation that installs a client is in flight and every client that is not installed any more has been closed |
| TargetOverlaps.HastyRequestCanAbandonAClient | apps/desktop/src/target-manager.ts:373-462 | from every sound state: a connect or pairing requested while a removal is outstanding can be followed, by steps that the code can make and without another such request, by an install over a client that was not closed |
| TargetOverlaps.ClientsAreClosedExactlyWhenCareful | apps/desktop/src/target-manager.ts:57-191 | after any careful run a request leaves every replaced client closed in all careful runs to come if and only if it is not a connect or a pairing while a removal is outstanding |
| TargetOverlaps.NeverClosed | apps/desktop/src/target-manager.ts:454-462 | a client that was replaced without being closed is not closed by anything that happens later |
| TargetExamples.ClientAbandonedAfterARemoval | apps/desktop/src/target-manager.ts:182-191 | a run from the unknown target, with a removal and a connect behind it, that leaves a client replaced and not closed |
| TargetExamples.TwoHastyConnectsFailInOrder | apps/desktop/src/target-manager.ts:182-191 | the same with a registry that answers lookups in order, after two connects behind the removal |
| ServiceQueues.ServiceQueue.InspectService | apps/desktop/src/ipc.ts:501-510 | the shared inspection itself is returned and nothing is queued, and without one a new inspection is queued and shared |
| ServiceQueues.OperationsRunOneByOne | apps/desktop/src/ipc.ts:550-554 | in every run operations start and settle strictly one after the other in request order, rejected or not |
| ServiceQueues.ReadAfterWrite | apps/desktop/src/ipc.ts:501-549 | an inspection handed to any caller starts only after every write requested before that call has settled |
| ServiceEffects.SharedInspectionIsHandedOut | apps/desktop/src/ipc.ts:501-502 | while an inspection is shared every caller gets that very one and no operation is added |
| ServiceEffects.NewInspectionIsHandedOut | apps/desktop/src/ipc.ts:503-510 | without a shared one a caller gets a new inspection, queued behind everything and shared from then on |
| ServiceEffects.SettledInspectionIsNotHandedOutAgain | apps/desktop/src/ipc.ts:505-508 | a settled inspection is forgotten, so the next caller gets a new one that has not begun |
| ServiceEffects.NewerInspectionStaysShared | apps/desktop/src/ipc.ts:505-507 | the settling of an older inspection does not clear a newer one |
| ServiceEffects.WriteIsQueued | apps/desktop/src/ipc.ts:538-549 | a write is queued behind everything and ends the sharing of the inspection before it |
| ServiceEffects.QueueNeverStalls | apps/desktop/src/ipc.ts:550-554 | the first operation that has not settled can always start or settle, whether those before it failed or not |
| UpdateControllers.DesktopUpdateController.CheckForUpdate | apps/desktop/src/update-controller.ts:399-443 | nothing happens while downloading, when ready or after disposal, and a check under way is never doubled |
| UpdateControllers.DesktopUpdateController.JudgeVersion | apps/desktop/src/update-controller.ts:519-580 | a found version is judged by compareVersions against the running one |
| UpdateControllers.DesktopUpdateController.DownloadUpdate | apps/desktop/src/update-controller.ts:445-484 | downloading is entered only natively and from an available version; a browser is opened only for the recorded manual release |
| UpdateControllers.DesktopUpdateController.SettleDownload | apps/desktop/src/update-controller.ts:445-484 | a failed download ends in the error phase whatever the listeners did; a successful one is ready if it was still downloading |
| UpdateControllers.DesktopUpdateController.OnNativeError | apps/desktop/src/update-controller.ts:303-320 | an updater error changes the phase only while downloading or ready, to the error phase |
| UpdateControllers.DesktopUpdateController.OnNativeDownloaded | apps/desktop/src/update-controller.ts:330-355 | ready is entered only while downloading and only for the recorded version |
| UpdateControllers.DesktopUpdateController.RestartToUpdate | apps/desktop/src/update-controller.ts:486-497 | the installer is started only natively, from ready, and before disposal |
| UpdateControllers.PhasesByEligibility | apps/desktop/src/update-controller.ts:399-497 | native controllers never reach manual; the others never reach available, downloading or ready and never install |
| UpdateControllers.PhaseOrder | apps/desktop/src/update-controller.ts:303-355 | ready is entered only from downloading, and downloading only from available |
| UpdateControllers.OnlyNewerReleases | apps/desktop/src/update-controller.ts:519-580 | every recorded, opened or installed version is strictly newer than the running one by compareVersions |
| UpdateEffects.CheckBegins | apps/desktop/src/update-controller.ts:399-418 | a check begins unless one is under way, and an interactive one makes errors of either visible |
| UpdateEffects.NewerVersionIsOffered | apps/desktop/src/update-controller.ts:519-580 | a newer version is offered: natively as available, otherwise as manual with its official asset |
| UpdateEffects.OlderVersionIsUpToDate | apps/desktop/src/update-controller.ts:519-580 | a version that is not newer, or natively none, means up to date and clears the offer |
| UpdateEffects.FailedCheckIsShownIfAsked | apps/desktop/src/update-controller.ts:419-436 | a failed check or an unreadable version is an error exactly if someone asked, and clears the offer |
| UpdateEffects.OfferIsTaken | apps/desktop/src/update-controller.ts:445-484 | an available version is downloaded, a manual one opened in the browser, and in any other phase nothing happens |
| UpdateEffects.NewerVersionCanBeDownloaded | apps/desktop/src/update-controller.ts:445-580 | progress: from every reachable state with a check in flight a newer version found leads to its own download |
| UpdateEffects.ReportOfTheUpdater | apps/desktop/src/update-controller.ts:330-355 | the updater's report of the offered version makes it ready, one of another version is an error |
| UpdateEffects.ReadyVersionIsInstalled | apps/desktop/src/update-controller.ts:486-497 | a ready version is the one handed to the installer, and if that does not start it is an error |
| Versions.CompareVersions | apps/desktop/src/update-controller.ts:223-249 | the two loops compute the specified comparison; a version of another shape is refused |
| VersionShapes.AcceptedExactly | packages/protocol/src/app-update.ts:44-45 | a text is a version if and only if it is three numbers of one to six digits with dots between them, alone or with a hyphen and a tag of at most 64 characters |
| VersionShapes.ReleasesCompareByNumber | apps/desktop/src/update-controller.ts:223-229 | plain releases compare by their three numbers from left to right |
| VersionShapes.PrereleaseComesFirst | apps/desktop/src/update-controller.ts:230-232 | a pre-release comes before its release |
| VersionOrder.ComparisonIsATotalPreorder | apps/desktop/src/update-controller.ts:223-249 | reflexive, antisymmetric and total on all versions, transitive when the pre-release numbers are plain |
| VersionOrder.AgreesExactlyUnlessBlurred | apps/desktop/src/update-controller.ts:215-249 | for accepted versions with at most one hyphen the result is the precedence of section 11 of Semantic Versioning 2.0.0 if and only if the cores differ or the first two differing pre-release identifiers are not numbers that parseInt makes equal while they or the rest decide |
| VersionHyphens.ParsedIsSeen | apps/desktop/src/update-controller.ts:215-221 | of a pre-release with any number of hyphens the parser keeps the identifiers up to the first with a hyphen, which it cuts there |
| VersionHyphens.AgreesExactlyUnlessMisread | apps/desktop/src/update-controller.ts:215-249 | for all accepted versions the result is the precedence of section 11 of Semantic Versioning 2.0.0 if and only if the cores differ or the pre-releases are not misread: no confused numbers, no cut identifier that hides a difference, and none that is cut to digits and then out of order |
| VersionOrder.AgreesWithSemanticVersioning | apps/desktop/src/update-controller.ts:215-249 | on canonical versions the result is the precedence of section 11 of Semantic Versioning 2.0.0, and zero only for equal versions |
| VersionOrder.CanonicalInjective | apps/desktop/src/update-controller.ts:215-221 | canonical versions that parse alike are equal texts |
| VersionOrder.TextAfterASecondHyphenIsIgnored | apps/desktop/src/update-controller.ts:215-221 | whatever follows a second hyphen does not matter to the comparison |
| Binary64.NearestKeepsOrder | apps/desktop/src/update-controller.ts:242-243 | rounding to binary64, ties to even, never turns a greater number into a lesser one |
| Binary64.SmallNumbersAreExact | apps/desktop/src/update-controller.ts:242-243 | numbers up to 2^53 are not rounded |
| Binary64.NearestIsNearest | apps/desktop/src/update-controller.ts:242-243 | every larger number is rounded to the nearest one of 53 binary digits, to an even one at a tie |
| VersionExamples.LeadingZerosBreakTransitivity | apps/desktop/src/update-controller.ts:236-248 | 1.0.0-1.b, 1.0.0-01.a and 1.0.0-1.a: the first two and the last two compare as equal, the outer ones do not |
| VersionExamples.HugeNumbersCollide | apps/desktop/src/update-controller.ts:236-248 | 1.0.0-9007199254740992 and 1.0.0-9007199254740993 compare as equal |
| VersionExamples.SecondHyphenIsLost | apps/desktop/src/update-controller.ts:215-221 | 1.0.0-a-b and 1.0.0-a compare as equal, though section 11 orders them |
| Markdown.BlocksIn | apps/ios/Sources/T4Markdown.swift:44-73 | the nested loops compute the specified blocks |
| MarkdownTheorems.StreamingSafe | apps/ios/Sources/T4Markdown.swift:42-73 | for every text and extension, all blocks but the last are the first blocks of the longer text |
| MarkdownLayout.BlocksShowTheLayout | apps/ios/Sources/T4Markdown.swift:44-73 | however the lines are laid out as prose and fences, the blocks are what that layout shows, in order: no line is lost, duplicated or moved |
| MarkdownLayout.EveryTextHasALayout | apps/ios/Sources/T4Markdown.swift:44-73 | every list of lines has such a layout, whose lines are exactly the given ones |
| MarkdownLayout.TrimTakesTheEnds | apps/ios/Sources/T4Markdown.swift:62-63 | trimming removes exactly the characters of the set at the two ends |
| MarkdownWriting.CodeKeepsItsLines | apps/ios/Sources/T4Markdown.swift:44-73 | the code of a block gives back its lines when it is split |
| MarkdownWriting.LanguageStandsBehindTheFence | apps/ios/Sources/T4Markdown.swift:52-53 | the language is what stands behind the backticks without the white space around it |
| MarkdownWriting.WrittenBlocksAreReadBack | apps/ios/Sources/T4Markdown.swift:44-73 | round trip: every list of blocks that can stand in a message is read back from the message it is written as |
| ProfileLabels.CleanLabel | apps/desktop/src/local-profiles.ts:36-45 | returns the cleaned label or the fallback |
| ProfileLabels.ReplaceControls | apps/desktop/src/local-profiles.ts:38-41 | the loop turns every control character into a space and leaves the others |
| ProfileLabels.GoodLabelsAreTidy | apps/desktop/src/local-profiles.ts:67-73 | the labels the decoder accepts are exactly those of 1 to 128 code units without control characters, with single inner spaces only |
| ProfileLabels.CleanLabelIsGood | apps/desktop/src/local-profiles.ts:36-45 | a cleaned label is accepted again if and only if the cut at 128 does not leave a space at its end |
| ProfileLabels.DerivedLabelIsGood | apps/desktop/src/local-profiles.ts:47-53 | the label derived from an id is always accepted |
| LabelWords.CleaningKeepsTheWords | apps/desktop/src/local-profiles.ts:36-45 | cleaning keeps the words of a label in order with single spaces between them |
| LabelWords.CleanedLabelIs | apps/desktop/src/local-profiles.ts:36-45 | a label is cleaned to its words cut at 128 code units, or to the fallback when it has none |
| LabelWords.DerivedLabelIs | apps/desktop/src/local-profiles.ts:47-53 | the label derived from an id is its parts with capital first letters and single spaces between them |
| ProfileIdShapes.ValidExactly | packages/protocol/src/desktop-ipc.ts:642-655 | an id is accepted if and only if it has 1 to 64 lower-case letters, digits and marks, begins with no mark, ends with no dot and stands for no reserved device name |
| LocalProfileRegistries.DecodeStored | apps/desktop/src/local-profiles.ts:79-106 | the decoding loops compute the specified state or refuse it |
| LocalProfileRegistries.MergeDiscovered | apps/desktop/src/local-profiles.ts:318-333 | the merge loop computes the specified records |
| LocalProfileRegistries.LocalProfileRegistry.WriteState | apps/desktop/src/stores.ts:246-253 | a value that does not decode is refused and leaves the store as it is |
| LocalProfileRegistries.LocalProfileRegistry.ReadMergedState | apps/desktop/src/local-profiles.ts:302-341 | reads, merges and writes back only a changed state |
| LocalProfileRegistries.LocalProfileRegistry.AddProfile | apps/desktop/src/local-profiles.ts:242-262 | new store and outcome of an add, refused ones included |
| LocalProfileRegistries.LocalProfileRegistry.UpdateProfile | apps/desktop/src/local-profiles.ts:264-285 | new store and outcome of an update, refused ones included |
| LocalProfileRegistries.LocalProfileRegistry.RemoveProfile | apps/desktop/src/local-profiles.ts:287-300 | new store and outcome of a removal, refused ones included |
| LocalProfileRegistries.RegistryStaysValid | apps/desktop/src/local-profiles.ts:79-341 | from the default store, after any calls and any discovery: default first and unique, distinct ids, at most 64 profiles and tombstones, none both listed and removed, and the store decodes to itself |
| LocalProfileRegistries.WhenAddIsAccepted | apps/desktop/src/local-profiles.ts:242-262 | an add succeeds if and only if the id is valid and new, there is room, and the label is not cut at a space |
| LocalProfileRegistries.WhenUpdateIsAccepted | apps/desktop/src/local-profiles.ts:264-285 | an update succeeds if and only if the id is listed and not the default's, and the label is not cut at a space |
| LocalProfileRegistries.WhenRemoveIsAccepted | apps/desktop/src/local-profiles.ts:287-300 | a removal succeeds if and only if the id is listed and not the default's, and fewer than 64 profiles were removed before |
| LocalProfileTheorems.DecodeIsIdentity | apps/desktop/src/local-profiles.ts:79-106 | a valid state decodes to itself |
| LocalProfileTheorems.ReadingAppends | apps/desktop/src/local-profiles.ts:310-341 | a read never fails, keeps every record and tombstone, appends only profiles that are switched off, and writes exactly when something was appended |
| LocalProfileTheorems.SecondReadWritesNothing | apps/desktop/src/local-profiles.ts:310-341 | a second read with the same discovery changes and writes nothing |
| LocalProfileTheorems.ApplyKeeps | apps/desktop/src/local-profiles.ts:242-341 | a call succeeds exactly under its condition, and a refused one leaves at most what its read merged |
| LocalProfileTheorems.OnlyTheNamedProfileChanges | apps/desktop/src/local-profiles.ts:242-341 | a call touches only the profile it names; discovery never alters or drops a record or adds one that is switched on |
| ProfileEffects.WhatAnUpdateStores | apps/desktop/src/local-profiles.ts:264-285 | an accepted update gives the named profile its new label and switch, where given, and leaves all else as it is |
| ProfileEffects.WhatAnAddStores | apps/desktop/src/local-profiles.ts:242-262 | an accepted add puts the new profile last and lifts its tombstone |
| ProfileEffects.WhatARemovalStores | apps/desktop/src/local-profiles.ts:287-300 | an accepted removal takes just the profile off the list and leaves a tombstone |
| ProfileEffects.WhatIsAdded | apps/desktop/src/local-profiles.ts:242-262 | the added label is the cleaned one given, or the one derived from the id; off unless asked |
| ProfileEffects.WhatIsUpdated | apps/desktop/src/local-profiles.ts:264-285 | the updated label is the cleaned one given; a blank one changes nothing |
| ProfileEffects.DiscoveredProfilesAreListed | apps/desktop/src/local-profiles.ts:310-341 | what a read adds are first good candidates, switched off, and every good candidate that was not removed is listed afterwards unless the registry is full |
| ProfileEffects.WhatIsDecoded | apps/desktop/src/local-profiles.ts:79-106 | a state is read if and only if its counts and entries are good: the default first, then the first record of each other id in order, and all tombstones but the default's |
| ProfileEffects.UnreadableIsDefault | apps/desktop/src/local-profiles.ts:302-308 | a store that cannot be read counts as the default profile alone |
| LocalProfileTheorems.ListedAgainOnlyByAdd | apps/desktop/src/local-profiles.ts:242-341 | a removed profile is listed again by a call if and only if the call is an accepted add of it |
| LocalProfileRegistries.RemovedStaysOut | apps/desktop/src/local-profiles.ts:287-341 | from the default store, after any calls: once a removal is accepted its profile stays out of the list, over any calls and any discovery, until an add of it is accepted |
| ProfileExamples.LongTitleIsRefused | apps/desktop/src/local-profiles.ts:36-45 | a title of 127 letters, a space and a letter makes an add fail that succeeds without it |
| ProfileExamples.SixtyFifthRemovalIsRefused | apps/desktop/src/local-profiles.ts:287-300 | after 64 profiles were added and removed a 65th can be added but not removed |
| Dialogs.SurfaceQueue.Add | apps/desktop/src/browser-dialogs.ts:218-230 | a job is taken exactly when the queue is open and not full, and the drain loop is started |
| Dialogs.SurfaceQueue.DisposeQueue | apps/desktop/src/browser-dialogs.ts:194-210 | every waiting job and the active one are answered with their fallback |
| Dialogs.EveryJobIsResolvedOnce | apps/desktop/src/browser-dialogs.ts:194-258 | in every run each accepted job is resolved exactly once as soon as it is neither waiting nor running in an open queue, never before and never twice; jobs start in order, one dialog at a time, within the limit, and an open queue with waiting jobs is draining |
| Dialogs.ValueReachesItsJob | apps/desktop/src/browser-dialogs.ts:240-249 | the value of a dialog reaches its job exactly when it comes before the disposal |
| Dialogs.EverySurfaceIsServed | apps/desktop/src/browser-dialogs.ts:78-216 | the same for all queues of a controller over installs and disposals; a queue is open exactly while a surface uses it |
| DialogEffects.RequestIsShownOrWaits | apps/desktop/src/browser-dialogs.ts:218-238 | a request opens its dialog at once if none is open, and otherwise waits behind all others |
| DialogEffects.ClosingShowsTheNext | apps/desktop/src/browser-dialogs.ts:232-258 | a closed dialog answers its job with its value and the job that waited longest is shown |
| DialogEffects.ClosingAfterDisposal | apps/desktop/src/browser-dialogs.ts:232-258 | a dialog that closes after the disposal answers nobody and nothing is shown |
| DialogEffects.DisposalAnswersAll | apps/desktop/src/browser-dialogs.ts:194-210 | a disposal answers every job that was not answered, without a value |
| DialogEffects.EveryJobIsShown | apps/desktop/src/browser-dialogs.ts:232-258 | progress: if the dialogs that open are closed with values, every waiting job is shown and gets its value |
| DialogEffects.RequestReachesItsSurface | apps/desktop/src/browser-dialogs.ts:117-192 | a request goes to the queue of its own surface and no other queue notices |
| DialogEffects.ClosingReachesItsQueue | apps/desktop/src/browser-dialogs.ts:232-258 | a closed dialog goes to the queue that opened it, also one that was replaced |
| DialogEffects.DroppedSurfaceIsDisposed | apps/desktop/src/browser-dialogs.ts:194-210 | a dropped surface has no queue and the one it had is disposed |
| DialogEffects.InstalledSurfaceIsServed | apps/desktop/src/browser-dialogs.ts:78-116 | an installed surface has a new queue that shows its first request, and the old queue is disposed |
| DialogEffects.DisposalDropsAll | apps/desktop/src/browser-dialogs.ts:212-216 | after disposal every queue is disposed and no surface is served or installed |
| DialogSurfaces.OneDialogPerSurface | apps/desktop/src/browser-dialogs.ts:78-258 | in every run in which a surface is installed again or dropped only while its queue has no dialog open, a surface has at most one dialog open |
| DialogSurfaces.InstallAddsOneDialog | apps/desktop/src/browser-dialogs.ts:78-82 | in every reachable state a new install followed by a request opens exactly one dialog more, so two are open if and only if one was open before |
| DialogSurfaces.TwoDialogsOfOneSurface | apps/desktop/src/browser-dialogs.ts:78-82 | a new controller whose surface is installed, asked, installed and asked has two dialogs of it open |
| AuthQueues.AuthController.FinishChallenge | apps/desktop/src/browser-auth.ts:111-117 | the first result or timeout answers the challenge once, later ones change nothing, and after disposal no credentials are given |
| AuthQueues.AuthController.HandleLogin | apps/desktop/src/browser-auth.ts:130-146 | a challenge is refused, or queued with its retry mark |
| AuthQueues.AuthController.ClearAll | apps/desktop/src/browser-auth.ts:149-152 | every waiting challenge is answered without credentials |
| AuthQueues.AuthController.DisposeAll | apps/desktop/src/browser-auth.ts:153-158 | every waiting challenge is answered without credentials, once |
| AuthQueues.EveryChallengeIsAnsweredOnce | apps/desktop/src/browser-auth.ts:105-158 | in every run waiting and running challenges fit the queue, a non-empty queue has the resolver running, and each challenge is answered exactly once when it is neither waiting nor running |
| AuthQueues.CredentialsStayWithTheirChallenge | apps/desktop/src/browser-auth.ts:111-127 | a challenge only ever gets credentials that the resolver returned for that challenge |
| AuthQueues.LateResultIsIgnored | apps/desktop/src/browser-auth.ts:111-127 | a result or timer after the answer changes nothing |
| AuthQueues.NoCredentialsAfterDisposal | apps/desktop/src/browser-auth.ts:111-158 | over every run after a disposal no challenge is given credentials, not even one that was with the resolver |
| AuthQueues.RetriesWereAsked | apps/desktop/src/browser-auth.ts:141-143 | a retry mark means the key was asked for since the last clear, and conversely while at most 64 keys were |
| AuthEffects.RefusedExactly | apps/desktop/src/browser-auth.ts:130-140 | a challenge is refused if and only if it is not valid, the controller is disposed, or waiting and running ones fill the queue |
| AuthEffects.AcceptedChallengeIsTakenUp | apps/desktop/src/browser-auth.ts:105-146 | an accepted challenge goes to the resolver if that is free and otherwise waits behind all others, unanswered |
| AuthEffects.RefusedChallengeIsAnswered | apps/desktop/src/browser-auth.ts:130-140 | a refused challenge is answered at once without credentials and nothing else changes |
| AuthEffects.ResolvedIsHandedOn | apps/desktop/src/browser-auth.ts:111-127 | the credentials for the challenge with the resolver are handed on and the one that waited longest takes its place |
| AuthEffects.TimeoutAnswersWithNothing | apps/desktop/src/browser-auth.ts:111-118 | a timer answers its challenge without credentials and the next is taken up |
| AuthEffects.ResolvedAfterDisposal | apps/desktop/src/browser-auth.ts:111-127 | an answer after the disposal ends its challenge without credentials |
| AuthEffects.ClearingAnswersTheWaiting | apps/desktop/src/browser-auth.ts:149-152 | clearing answers exactly the waiting challenges without credentials, and the one with the resolver stays |
| AuthEffects.DisposalAnswersTheWaiting | apps/desktop/src/browser-auth.ts:153-158 | a disposal clears and refuses every later challenge |
| AuthEffects.SecondChallengeIsARetry | apps/desktop/src/browser-auth.ts:141-143 | a second challenge with the same key is a retry until the controller is cleared, and no other key is affected |
| AuthEffects.RememberedKeysAreBounded | apps/desktop/src/browser-auth.ts:141-143 | in no run more than 64 keys are remembered |
| AuthEffects.EveryChallengeIsResolved | apps/desktop/src/browser-auth.ts:105-127 | progress: if the resolver answers each time, everything that waits is given its own credentials |
| DownloadControllers.BrowserDownloadController.ResolveWaiting | apps/desktop/src/browser-downloads.ts:317-325 | the loop takes every waiter of a download off and tells each its record |
| DownloadControllers.BrowserDownloadController.DisposeController | apps/desktop/src/browser-downloads.ts:204-221 | every registered waiter is told nothing |
| DownloadTheorems.WaitersAndItemsAgree | apps/desktop/src/browser-downloads.ts:164-325 | in every run, before disposal the live items are the downloads that have not ended; no waiter is registered for an ended one; each waiter is resolved exactly once when no longer registered, with its own terminal record or nothing |
| DownloadTheorems.TerminalIsFinal | apps/desktop/src/browser-downloads.ts:256-307 | a terminal record never changes again |
| DownloadTheorems.ToldNothingOnlyLate | apps/desktop/src/browser-downloads.ts:164-221 | a waiter is told nothing only by its timer or by disposal |
| DownloadEffects.NewDownloadIsListed | apps/desktop/src/browser-downloads.ts:232-254 | a new download is listed as started; one that cannot be saved has failed at once and its waiters are told |
| DownloadEffects.ProgressIsRecorded | apps/desktop/src/browser-downloads.ts:256-263 | progress replaces only the record of a download under way, and keeps the bytes if none are reported |
| DownloadEffects.CompletedFileIsRecorded | apps/desktop/src/browser-downloads.ts:265-296 | once its file is in place a completed download is recorded so, its item is gone, and all its waiters and no others are told |
| DownloadEffects.FailedMoveIsRecorded | apps/desktop/src/browser-downloads.ts:265-307 | when the file cannot be moved nothing is recorded until it is removed, and then a failure |
| DownloadEffects.InterruptedIsRecorded | apps/desktop/src/browser-downloads.ts:265-296 | a cancelled or interrupted download is recorded so once its file is removed |
| DownloadEffects.EndAfterDisposal | apps/desktop/src/browser-downloads.ts:265-272 | after the disposal the end of a download only drops its item |
| DownloadEffects.EndedIsToldAtOnce | apps/desktop/src/browser-downloads.ts:164-166 | who waits for a download that has ended is told its record at once |
| DownloadEffects.WaiterIsAdded | apps/desktop/src/browser-downloads.ts:168-182 | any other waiter joins those of its download with a timer |
| DownloadEffects.ExpiredWaiterIsTold | apps/desktop/src/browser-downloads.ts:171-176 | a waiter whose time is over is told nothing |
| DownloadEffects.OthersWaitOn | apps/desktop/src/browser-downloads.ts:171-176 | an expiry takes only its own waiter off the list |
| DownloadEffects.DisposalTellsAll | apps/desktop/src/browser-downloads.ts:204-221 | a disposal tells every waiter nothing and keeps the records |
| SessionRecords.CutToFit | apps/desktop/src/browser-session-store.ts:63-68 | the cutting loop ends and returns the longest prefix that fits |
| SessionRecords.SanitizeIsIdempotent | apps/desktop/src/browser-session-store.ts:75-89 | sanitising a sanitised URL changes nothing, however the platform writes the query anew when it deletes a parameter |
| SessionRecords.SanitizedIsSafe | apps/desktop/src/browser-session-store.ts:70-89 | what is kept is about:blank or a web URL without credentials, fragment or sensitive parameters |
| SessionRecords.NormalizeIsIdempotent | apps/desktop/src/browser-session-store.ts:91-132 | a normalised record is normalised to itself |
| SessionEffects.PlainWebUrlIsKept | apps/desktop/src/browser-session-store.ts:75-89 | a web URL without credentials, secrets and fragment is kept as it is |
| SessionEffects.SecretsAreDropped | apps/desktop/src/browser-session-store.ts:81-88 | of another web URL all is kept but secrets and fragment, and with credentials nothing is |
| SessionEffects.OtherUrlsAreBlank | apps/desktop/src/browser-session-store.ts:75-81 | what is no web URL is blank |
| SessionEffects.BoundedIsAPrefix | apps/desktop/src/browser-session-store.ts:63-68 | a bounded text is the longest prefix that fits of the trimmed text with spaces for control characters |
| SessionEffects.PlainInputIsKept | apps/desktop/src/browser-session-store.ts:120-132 | an input whose ids have the right form is accepted with all its fields |
| SessionEffects.AcceptedRecordIsTiedToItsInput | apps/desktop/src/browser-session-store.ts:91-132 | whatever is accepted has the right form, and owner, order, zoom and kind of profile of its input |
| SessionShapes.SurfaceIdExactly | apps/desktop/src/browser-session-store.ts:17-17 | an id is accepted if and only if it is five groups of 8, 4, 4, 4 and 12 hexadecimal digits with hyphens between them, the fourth beginning with 8, 9, a or b |
| SessionShapes.HandleExactly | apps/desktop/src/browser-session-store.ts:18-18 | a handle is accepted if and only if it is surface: with a number of at most nine digits that does not begin with zero |
| SessionShapes.ProfileIdExactly | apps/desktop/src/browser-session-store.ts:111-116 | a profile id is accepted if and only if it has up to 64 lower-case letters, digits and marks, begins with a letter and is not reserved |
| SessionStores.SortIsStable | apps/desktop/src/browser-session-store.ts:212-216 | the sort orders by order and keeps records of equal order as they were |
| SessionStores.StableSortIsUnique | apps/desktop/src/browser-session-store.ts:212-216 | there is only one stable sort, so it does not matter how it is done |
| SessionStores.UpsertStoresUnlessFull | apps/desktop/src/browser-session-store.ts:208-221 | an upserted record is itself dropped if and only if 64 others already come before it |
| SessionEffects.UpsertIsRefusedForATakenHandle | apps/desktop/src/browser-session-store.ts:208-221 | an upsert is refused if and only if another surface has the handle |
| SessionEffects.WhatAnUpsertStores | apps/desktop/src/browser-session-store.ts:208-221 | after an upsert the store holds the record and those of the other surfaces sorted by order, and above 64 the greatest orders are missing |
| SessionEffects.RemovalLeavesTheOthers | apps/desktop/src/browser-session-store.ts:223-233 | a removal takes the records of the surface and leaves the others in their order |
| SessionEffects.WhatIsRead | apps/desktop/src/browser-session-store.ts:134-152 | items are read if and only if there are at most 64, all but the legacy ones are accepted and no id or handle is shared; then all of them, in order |
| SessionEffects.WhatIsWritten | apps/desktop/src/browser-session-store.ts:189-206 | a write stores the accepted records in order, leaving out only what shares an id or handle with one before it or comes after the first 64 |
| SessionEffects.OperationsAreSaved | apps/desktop/src/browser-session-store.ts:178-253 | whatever an operation leaves in the state is in the backend too, and nothing after a clear |
| SessionEffects.AcceptedUpsertIsSaved | apps/desktop/src/browser-session-store.ts:208-221 | an accepted upsert is in the backend as it was stored |
| BrowserSessionStores.DecodeItems | apps/desktop/src/browser-session-store.ts:140-152 | the decoding loop skips legacy items, normalises every other one, and returns nothing when one is refused or clashes with an earlier one |
| BrowserSessionStores.BrowserSessionStore.WriteAll | apps/desktop/src/browser-session-store.ts:189-206 | the loop normalises each input and stores the first record of each id and handle, at most 64 |
| BrowserSessionStores.BrowserSessionStore.UpsertRecord | apps/desktop/src/browser-session-store.ts:208-221 | the input is refused exactly when it does not normalise or its handle is taken by another surface; otherwise it replaces the record of its surface, sorted and cut to 64 |
| BrowserSessionStores.BrowserSessionStore.RemoveSurface | apps/desktop/src/browser-session-store.ts:223-233 | exactly the record of the surface is gone, every other one is kept |
| BrowserSessionStores.ReadIsValid | apps/desktop/src/browser-session-store.ts:244-253 | whatever the backend holds, a read leaves a valid state that the backend decodes to |
| BrowserSessionStores.StoreReadsBackWhatItWrote | apps/desktop/src/browser-session-store.ts:189-253 | after any operations the state has at most 64 records with distinct ids and handles, the backend decodes to exactly it, and a load changes nothing |
| SessionExamples.AcceptedAndDropped | apps/desktop/src/browser-session-store.ts:208-221 | for every owner a stored state of 64 sessions is read back whole, and a new session behind them is accepted and dropped |
| SessionRecords.SmallPlatformIsLawful | apps/desktop/src/browser-session-store.ts:75-89 | the laws asked of the platform can be met, with a web URL that is kept |
| RouteExpressions.EveryPatternCompiles | apps/desktop/src/browser-network.ts:257-258 | every escaped and starred pattern is a well-formed expression: its own characters and stars between the anchors |
| RouteExpressions.EscapesTheSyntax | apps/desktop/src/browser-network.ts:257-257 | what is escaped is exactly the syntax characters of regular expressions but the star |
| RouteExpressions.StarTakesAllButLineEnds | apps/desktop/src/browser-network.ts:257-258 | a star takes every character but the four line terminators |
| RouteExpressions.CompiledPatternIsTheGlob | apps/desktop/src/browser-network.ts:240-259 | the compiled expression finds a match exactly when the case-insensitive glob matches the whole URL |
| RouteExpressions.CompiledPatternIsThePlainGlob | apps/desktop/src/browser-network.ts:240-259 | on a URL without line terminators that is the textbook glob |
| RouteExpressions.StarStopsAtALineEnd | apps/desktop/src/browser-network.ts:257-258 | a lone star takes every text as a textbook glob, and as an expression exactly one without line terminators |
| RouteExpressions.PlainForEveryPatternExactlyOnOneLine | apps/desktop/src/browser-network.ts:240-259 | the expression is the textbook glob for every pattern if and only if the text has no line terminator |
| NetworkRoutes.BrowserNetworkController.SetRoute | apps/desktop/src/browser-network.ts:450-467 | a route is added exactly when everything about it is accepted and its id is free, and a generated number is used up either way |
| NetworkRoutes.BrowserNetworkController.RouteFor | apps/desktop/src/browser-network.ts:354-357 | the lookup loop returns the first route whose expression matches |
| NetworkRoutes.EarliestMatchingRouteWins | apps/desktop/src/browser-network.ts:354-357 | after any additions and removals a request gets the earliest added route whose glob matches, and none if none does; ids are distinct and at most 64 |
| RouteEffects.WishIsAdded | apps/desktop/src/browser-network.ts:450-467 | a complete wish with a free id is added last with its own pattern and action, and uses up a number if it had no id |
| RouteEffects.OtherWishIsRefused | apps/desktop/src/browser-network.ts:450-467 | any other wish leaves the routes as they are, and uses up a number exactly if it had no id and passed the first checks |
| RouteEffects.AddedRouteCatches | apps/desktop/src/browser-network.ts:354-357 | an added route catches exactly the requests that its glob matches and no earlier route catches |
| RouteEffects.RouteIsRemoved | apps/desktop/src/browser-network.ts:469-474 | a removal takes exactly the route of the id and the others keep their places |
| Utf8.ByteLengthCountsOctets | apps/desktop/src/browser-automation.ts:127-129 | the length of a text is the number of octets of its UTF-8 form by section 3 of RFC 3629, three for a lone surrogate |
| TextShapes.PointsAreReadBack | apps/desktop/src/browser-automation.ts:127-129 | reading the UTF-16 form of any code points gives them back, by section 2.1 of RFC 2781 |
| TextShapes.LoneSurrogateIsReplaced | apps/desktop/src/browser-automation.ts:127-129 | a surrogate without its partner counts as the replacement character |
| Bounding.BoundString | apps/desktop/src/browser-automation.ts:131-136 | the loop returns a prefix that fits, and every longer prefix does not |
| Bounding.PrefixesThatFit | apps/desktop/src/browser-automation.ts:131-136 | a prefix fits if and only if it is no longer than the result |
| BoundingTheorems.ResultFits | apps/desktop/src/browser-automation.ts:138-154 | on every graph, cyclic or not, the result keeps the depth, width, key and string limits |
| BoundingTheorems.UnchangedExactlyWhenItFits | apps/desktop/src/browser-automation.ts:138-154 | a JSON value is left as it is if and only if it is within the limits |
| BoundingTheorems.BoundingIsIdempotent | apps/desktop/src/browser-automation.ts:138-154 | bounding twice is bounding once |
| BoundingEffects.PlainValuesStay | apps/desktop/src/browser-automation.ts:139-143 | plain values stay, numbers that are not finite are named, and text is cut to its longest prefix that fits |
| BoundingEffects.ArrayKeepsItsFirstItems | apps/desktop/src/browser-automation.ts:147-147 | of an array the first 256 items are left, each bounded one level deeper |
| BoundingEffects.ObjectKeepsItsFirstMembers | apps/desktop/src/browser-automation.ts:148-150 | of an object the first 64 members are left under their shortened keys: none lost but the one that sets the prototype, in order, each with the value assigned last |
| BoundingTheorems.BoundValueWith | apps/desktop/src/browser-automation.ts:138-154 | the recursion with its one mutable set terminates, restores the set and computes the specified value |
| ElementRefs.WrittenIsWellWritten | apps/desktop/src/browser-dom-automation.ts:119-120 | a written reference has the accepted shape if and only if its number is between 1 and 999999999 |
| ElementRefs.WrittenIsInjective | apps/desktop/src/browser-dom-automation.ts:114-114 | different numbers are written differently |
| ElementRefs.TableIsInjective | apps/desktop/src/browser-dom-automation.ts:111-118 | over lookups, frame switches and resets no element has two references in the table |
| ElementRefs.RefIsStable | apps/desktop/src/browser-dom-automation.ts:111-118 | an element keeps its reference until the table is cleared |
| ElementRefs.NoRefIsReissued | apps/desktop/src/browser-dom-automation.ts:328-351 | between resets no number is given to a second element, frame switches included |
| ElementRefs.CheckedRefWasIssued | apps/desktop/src/browser-dom-automation.ts:119-124 | a reference that is found leads to the element it was issued for since the last reset |
| ElementRefs.CheckInvertsRef | apps/desktop/src/browser-dom-automation.ts:111-124 | checkRef leads back to the element exactly when the number has at most nine digits and the element is connected and in the active document |
| ElementEffects.NumbersAreGivenInOrder | apps/desktop/src/browser-dom-automation.ts:111-118 | new elements get the next numbers in the order they are looked at |
| ElementEffects.NumbersAfterClearing | apps/desktop/src/browser-dom-automation.ts:328-348 | after a reset the numbers start at 1, after a frame switch they go on |
| ElementEffects.ClearingForgetsAll | apps/desktop/src/browser-dom-automation.ts:328-351 | no reference outlives a reset or a frame switch |
| ElementEffects.FrameDecidesWhoIsFound | apps/desktop/src/browser-dom-automation.ts:119-124 | after a frame switch exactly the connected elements of the new document are found, after a reset those of every document |

## Left out

- BrowserRuntimes.BrowserRuntime.ActivateSurface: surfaces are values in the runtime's map, so aliasing of surface objects held elsewhere is not captured; the updates of one surface object in place are in `BrowserSurfaces.BrowserSurface`.
- VersionOrder.AgreesWithSemanticVersioning: its condition is sufficient, not necessary; the exact one is in `VersionHyphens.AgreesExactlyUnlessMisread`.
- SessionRecords.NormalizeIsIdempotent: Unicode normalisation, the URL parser and serialiser and the deletion of query parameters are parameters with the laws of their standards; the owner check of the protocol package is a parameter without laws.
- RouteExpressions.CompiledPatternIsTheGlob: case folding is a parameter, and that no other character folds to a line terminator is built into the meaning of the dot.
- NetworkRoutes.BrowserNetworkController.SetRoute: whether a pattern, an id or a redirect is acceptable comes in with the call; the checks on schemes, authorities and query keys are not modelled.
- TargetOverlaps.ClientsAreClosedExactlyWhenCareful: the registry may answer lookups in any order; for one that answers in order the condition is shown to be sufficient only. Adding a removed target again is no step of its own; a lookup finds a target whenever the run says so.
- BoundingTheorems.BoundValueWith: objects are graphs of own enumerable properties; getters that run code, array holes and the order of integer keys are not modelled.
- AuthQueues.EveryChallengeIsAnsweredOnce: callbacks neither throw nor call back into the controller; the text checks on challenges and credentials come in with the events.
- DownloadTheorems.WaitersAndItemsAgree: file names, byte limits and paths are not modelled, and listeners do not dispose the controller while it publishes.
- Markdown.BlocksIn: text is a sequence of Unicode scalar values, so grapheme clusters such as a carriage return with a line feed are not single characters.
- ElementRefs.CheckInvertsRef: a reference is a number with its written form; element lookup, visibility and accessible names are not modelled.
- Ids from `crypto.randomUUID` are numbers that are never used twice.
- The electron-store backend, files, sockets, processes, timers and the keychain are events or plain values.
- `BrowserRuntime.dispose`, `DesktopTargetManager.close` and calls that race with them.
- Prewarmed surfaces, and the persistence of surfaces across owners.
- The sanitiser of browser profile ids, the byte bound on download file names, and trace ownership under concurrent starts.
- Discovery of native profiles on disk, protocol decoders, IPC plumbing, menus, views and report texts.
