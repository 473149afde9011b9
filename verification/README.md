# A verified model of the browser session service

This project models the concurrent core of the browser session service and the sequential
algorithms around it, in Dafny, and proves what they are there to guarantee.  Verify everything with

    dafny verify dfyconfig.toml

The service runs in a single-threaded event loop: code between two awaits is atomic, and every
await is a point where anything else may happen.  Each concurrent component is therefore one
module with

* an abstract `State`, an `Event` for every piece of code between two awaits (and for every
  timer, page event and protocol reply, arriving in any order), and a function `Step`;
* a class with the source's own fields, whose methods are proved to take exactly those steps;
* a second part (`...Runs`) of lemmas over every sequence of events;
* for the larger ones a third part (`...Effects`), which says from the side of the outcome which
  events change what, and what each caller is answered.

The sequential algorithms are methods with loops, proved against functions whose properties
are lemmas of their own.

| file | component |
|---|---|
| `SessionEngine`, `SessionEngineRuns`, `SessionEngineEffects` | the action queue of a session with its pauses, aborts, stops and workflows |
| `ControlLease`, `ControlLeaseRuns`, `ControlLeaseEffects` | the human handoff lease |
| `WorkerGate`, `WorkerGateRuns`, `WorkerGateEffects` | the two-connection startup gate for workers |
| `ProfileLeases`, `ProfileLeasesRuns`, `ProfileLeasesEffects` | exclusive leases of persistent profiles |
| `ActionCache`, `StableJson` | idempotent writes and the canonical text their fingerprints hash |
| `TabTable`, `TabTableEffects` | tab names, page revisions and the write guard |
| `AccountHealth`, `AccountHealthStore`, `AccountHealthStoreRuns` | account health with backoff, and its store behind per-profile queues |
| `RawCdp`, `WorkerPool` | the pending-command table of a raw connection; the shared-index worker pool |
| `TextSimilarity` | edit distance, similarity and the choice of a candidate |
| `ProfilePaging` | cursor pagination of the profile list |
| `Csv`, `Totp`, `Utf8` | CSV lines, one-time passwords, UTF-8 truncation |
| `InventoryWalk` | verifying an installation against its file inventory |
| `Redaction` | redacting structured error details |
| `Arithmetic`, `Wrappers` | powers of two; `Option` and `Result` |

## Assumptions

* Hashes are injective; issued tokens, session ids and workflow symbols are distinct.
* The clock does not go backwards where a lemma says so (`Nondecreasing`).
* Lower-casing, upper-casing, the order of `localeCompare`, key classification, URL stripping and
  the formatting of snapshot lines are parameters.  Upper-casing is the standard one on ASCII
  characters; the order on ids is strict and total.
* Real numbers stand for floating point in similarity scores.
* Network, browser, file and process calls are events with arbitrary outcomes.

## What the proofs found

Where the code does not do what its design promises, the model keeps the code; a lemma shows a
run in which the promise fails, and another says exactly when it holds.

* `expireIfDue` reports whether *it* expired the lease.  Its answer differs from that of a
  manager without timers exactly when a timer expired the lease and no call came in between
  (`ExpireIfDueCanDiffer`, `ExpireIfDueSeesTimers`).  Every other call is blind to timers
  (`TimersAreUnobservable`).
* A bootstrap acknowledged late, after its raw target detached and the same target attached
  again, opens the gate for the new attachment (`StaleAckOpensSuccessor`).  The current attachment
  has its own bootstrap exactly when one was acknowledged while its own attachment was the
  registered one, with no detaching since (`CurrentMeansLively`).
* A `closeTab` that opened a replacement for the only tab, and continues after the context was
  closed and launched again, activates a tab of the old context; the next page change then counts
  on the session alone (`LateCloseContinuationDrifts`).  `pageGeneration` mirrors the active tab
  exactly when nothing was counted on the session alone (`OpenContextMirrorsUnlessDrifted`,
  `GenerationMirrorsActiveTab`).
* After such a drift a guarded write can pass on a changed page: the guard taken then passes before
  and after the tab's own next change, which makes up for the drift (`DriftedGuardMissesAChange`).
  A guard with a listed tab id and revision is never fooled, whatever the drift
  (`GuardPassesOnlyUnchanged`); one with a number taken from `pageGeneration` passes again exactly
  when the changes since and the present drift add up to the drift of then (`PassedGuardPassesAgain`).
* `truncateUtf8` strips every U+FFFD at the cut, so a genuine one that fits is lost
  (`GenuineReplacementIsLost`; `TruncationIsTheLongestPrefix` gives the exact condition).

Further observations:

* `start` called while the session is `BUSY` is not refused: the session leaves `BUSY` with the
  write still in the slot (`StartLeavesBusy`).  The invariants of the engine hold all the same.
* Held resumes are dropped by a detaching, which requests the close of the context, or when the
  context closes by itself, and by nothing else (`DropsCloseTheContext`).
* Two boundary cases that the only callers rule out: the shared-index pool makes no worker for a
  concurrency below one and then returns empty results (`PoolCompletesUnlessEmpty`; the benchmark
  reads a positive number), and a CSV row without fields would come back as one empty field
  (`EmptyRowsGainAField`; the export always prints ten).

## Model

Limits, character classes and name checks are stated a second time, by value, in lemmas beside
them (such as `Csv.SpacesAreListed`, `Utf8.LimitIsClamped` and `InventoryWalk.NamesAreChecked`);
those have no row.

| member | source | states |
|---|---|---|
| `SessionEngine.BrowserSession.Enqueue` | src/browser/browser-session.ts:1987-2004 | an action is refused on the spot for a foreign workflow, user control or a full queue, in that order; otherwise it joins the queue and the depth grows |
| `SessionEngine.BrowserSession.BeginNext` | src/browser/browser-session.ts:2005-2034 | the turn of the oldest action: refused by the same gates in the code's order, or admitted, and a write makes the session `BUSY` |
| `SessionEngine.BrowserSession.AfterScan` | src/browser/browser-session.ts:2035-2043 | after the pre-action scan the body starts, unless the callbacks threw or a write meets a paused session |
| `SessionEngine.BrowserSession.EndBody` | src/browser/browser-session.ts:2043-2072 | a body ends: resolved and the slot given back, or its error mapped by the abort and audited first |
| `SessionEngine.BrowserSession.EnterPause` | src/browser/browser-session.ts:1800-1813 | a detected challenge pauses and aborts only when no pause, person or stop owns the session |
| `SessionEngine.BrowserSession.PageCrashed` | src/browser/browser-session.ts:1653-1659 | only a crash of the active tab sets the error state and aborts the running action |
| `SessionEngine.BrowserSession.Stop` | src/browser/browser-session.ts:772-780 | the first stop call takes effect, aborts the running action and shuts the queue; later ones do nothing |
| `SessionEngine.BrowserSession.BeginWorkflow` | src/browser/browser-session.ts:1332-1338 | a workflow reserves the session only when none is active, with a token never used before |
| `SessionEngine.BrowserSession.EndWorkflow` | src/browser/browser-session.ts:1362-1365 | only the token that holds the reservation clears it |
| `SessionEngineRuns.QueueDepthIsExact` | src/browser/browser-session.ts:1999-2071 | in every run `queueDepth` is the number of submitted but unsettled actions and lies within 0..maxQueue |
| `SessionEngineRuns.BusyMeansWriteOwnsSlot` | src/browser/browser-session.ts:2034-2069 | `BUSY` holds only while a write owns the slot |
| `SessionEngineRuns.StartLeavesBusy` | src/browser/browser-session.ts:591-605 | a concrete run in which `start` is called during a write and the session leaves `BUSY` with the write in the slot |
| `SessionEngineRuns.BodiesRunInOrder` | src/browser/browser-session.ts:2005-2077 | action bodies never overlap and start in submission order |
| `SessionEngineRuns.ResolvedWriteWasUndisturbed` | src/browser/browser-session.ts:2011-2052 | a write that resolves found `READY` at its turn, and no pause entry, stop, active-tab crash, timeout or cancellation occurred during it |
| `SessionEngineRuns.OneWorkflowAtATime` | src/browser/browser-session.ts:1333-1338 | two workflows are never active together: the first has ended before the second is active |
| `SessionEngineRuns.ReservationIsContinuous` | src/browser/browser-session.ts:1337-1365 | a workflow active at two moments was active at every moment between |
| `SessionEngineRuns.WorkflowOwnsTheQueue` | src/browser/browser-session.ts:1992-2018 | from a workflow's first admitted step to its end every body that runs belongs to it, also when others were queued before |
| `SessionEngineEffects.SettlingRestoresReady` | src/browser/browser-session.ts:2066-2071 | an action that gives its slot back leaves `READY` where it found `BUSY`, and every other state as it is |
| `SessionEngineEffects.UndisturbedWriteResolves` | src/browser/browser-session.ts:2005-2068 | a write that finds `READY` at its turn and that nothing disturbs gets to its body after scan and callbacks, resolves when that ends well, and leaves `READY` |
| `SessionEngineEffects.StatesHaveTheirCauses` | src/browser/browser-session.ts:591-2069 | for each of the nine states, exactly which events lead into it |
| `SessionEngineEffects.SubmissionsAreAnswered` | src/browser/browser-session.ts:1987-2004 | which of the three reasons a submission is refused for, the full queue counted in unsettled actions; otherwise the action joins the queue at the end as it is |
| `SessionEngineEffects.ActionsAreTheSubmitted` | src/browser/browser-session.ts:1999-2077 | every action in the queue or the slot is one that was submitted with just that token and those options |
| `SessionEngineEffects.TurnsAreAnswered` | src/browser/browser-session.ts:2005-2034 | what an action meets at its turn, by the state the session is in |
| `SessionEngineEffects.ActionsMoveByPhase` | src/browser/browser-session.ts:2034-2072 | where every event takes the action in the slot, the code it fails with, and that it is aborted by a challenge, a stop, a crash, its time limit or its caller and nothing else |
| `SessionEngineEffects.ReservationsMove` | src/browser/browser-session.ts:1332-1365 | a workflow reserves exactly a free session and only its own end frees it |
| `ControlLease.ControlLeaseManager.RequestHandoff` | src/browser/control-lease.ts:231-284 | a handoff is granted with a fresh lease, or refused with the code's error, after the lazy expiry check |
| `ControlLease.ControlLeaseManager.Takeover` | src/browser/control-lease.ts:293-324 | takeover needs a confirming user and the pending lease's token; an active lease answers only its own token |
| `ControlLease.ControlLeaseManager.Release` | src/browser/control-lease.ts:344-371 | release needs a confirming user and the active lease's token, and leaves control with nobody |
| `ControlLease.ControlLeaseManager.Resume` | src/browser/control-lease.ts:373-397 | the agent resumes only from the released state |
| `ControlLease.ControlLeaseManager.RecoverExpired` | src/browser/control-lease.ts:407-422 | a confirming user turns an expired handoff into a released one |
| `ControlLease.ControlLeaseManager.AssertAgentControl` | src/browser/control-lease.ts:429-439 | which error the agent's write guard throws, or none |
| `ControlLease.ControlLeaseManager.ExpireIfDue` | src/browser/control-lease.ts:484-491 | the lazy check, and whether it expired the lease |
| `ControlLease.ControlLeaseManager.ExpireLease` | src/browser/control-lease.ts:571-588 | a timer callback expires only its own generation at or after the deadline, and re-arms when early |
| `ControlLeaseRuns.ReachableIsCoherent` | src/browser/control-lease.ts:179-193 | in every run the control state, the owner, the handoff state and the lease record fit together |
| `ControlLeaseRuns.WriteGuardsAgree` | src/browser/control-lease.ts:429-449 | the status flags, the throwing guards and the state fields never disagree |
| `ControlLeaseRuns.AgentWritesNeedUserStep` | src/browser/control-lease.ts:231-422 | after a handoff is issued, agent writes are allowed again only after a release with the unexpired token of a lease that was taken over, or a confirmed recovery of an expired lease, followed by an agent resume |
| `ControlLeaseRuns.NeverExpiresEarly` | src/browser/control-lease.ts:571-580 | no event but disposal expires a lease before its deadline, and a timer only its own generation |
| `ControlLeaseRuns.TimersAreUnobservable` | src/browser/control-lease.ts:484-588 | for any schedule of timer callbacks every call but `expireIfDue` answers as the machine with lazy expiry only, up to the expiry stamp |
| `ControlLeaseRuns.HandoffsDifferAfterTimer` | src/browser/control-lease.ts:484-588 | the two machines are in different handoff states exactly while a timer has expired the lease and no call has come since |
| `ControlLeaseRuns.ExpireIfDueSeesTimers` | src/browser/control-lease.ts:484-491 | `expireIfDue` answers differently from the machine with lazy expiry only exactly when a timer expired the lease and only timers fired since |
| `ControlLeaseRuns.ExpireIfDueCanDiffer` | src/browser/control-lease.ts:484-491 | a concrete run in which the timer comes first and the two answers differ |
| `ControlLeaseEffects.GrantedTokenDecides` | src/browser/control-lease.ts:293-449 | while the lease of a grant is pending or active and not overdue, a confirmed user takes over, releases and writes exactly with the token the granting call returned; any other is refused with the code of that state and changes nothing |
| `ControlLeaseEffects.CallsAnswerByState` | src/browser/control-lease.ts:231-449 | for every call in every run the error its caller, the handoff state and its token ask for, or the effect and the answer; a refused call only expires what is overdue |
| `ControlLeaseEffects.RunningLeaseHasTimer` | src/browser/control-lease.ts:564-588 | a pending or active lease always has the timer of its own generation armed |
| `ControlLeaseEffects.TimerExpiresWhatIsDue` | src/browser/control-lease.ts:571-588 | a timer callback expires the running lease exactly when it is of its generation and due, and changes nothing else |
| `ControlLeaseEffects.StatusShowsTheState` | src/browser/control-lease.ts:503-536 | what a status shows in each handoff state, and that the times kept are those of the lease |
| `WorkerGate.ManagedWorkerIdentity.Send` | src/browser/chromium-launcher.ts:353-370 | what the gate rewrites, what it holds back and what it passes on |
| `WorkerGate.ManagedWorkerIdentity.HandleReply` | src/browser/chromium-launcher.ts:227-256 | how one reply moves a configuration on, opens the gate or fails the attachment |
| `WorkerGate.ManagedWorkerIdentity.HandleDetached` | src/browser/chromium-launcher.ts:264-274 | detaching forgets every target of the session and closes the context if a resume was held |
| `WorkerGate.ManagedWorkerIdentity.Release` | src/browser/chromium-launcher.ts:386-390 | opening a gate forwards its held messages in order, once |
| `WorkerGateRuns.NoResumeBeforeBootstrap` | src/browser/chromium-launcher.ts:227-282 | neither connection is given a startup resume of a gated worker before its bootstrap was acknowledged without an exception |
| `WorkerGateRuns.EveryResumeIsCovered` | src/browser/chromium-launcher.ts:353-390 | the events called resumes above are all the ways a resume can reach a connection |
| `WorkerGateRuns.CurrentMeansLively` | src/browser/chromium-launcher.ts:227-282 | the registered attachment has its own bootstrap acknowledged exactly when some clean acknowledgement came while its attachment was the registered one and the target did not detach since |
| `WorkerGateRuns.OpenGateIsCurrent` | src/browser/chromium-launcher.ts:386-398 | so an open gate belongs to the attachment registered now, if the bootstraps that still count were acknowledged on registered attachments |
| `WorkerGateRuns.StaleAckOpensSuccessor` | src/browser/chromium-launcher.ts:237-251 | a concrete run in which a late acknowledgement opens the gate of the successor |
| `WorkerGateRuns.ResumesAreConserved` | src/browser/chromium-launcher.ts:363-398 | every submitted resume is forwarded exactly once, still held or dropped, and the forwarded ones keep their order |
| `WorkerGateRuns.DropsCloseTheContext` | src/browser/chromium-launcher.ts:373-398 | an event drops resumes of a target exactly when it forgets the target while some are held: a detaching, which itself requests the close, or the close of the context |
| `WorkerGateRuns.MessagesAreManaged` | src/browser/chromium-launcher.ts:353-370 | every message Playwright sends goes out at once, field by field: the managed filter for a nested auto-attach, the managed identity for a user agent override of an attached worker, all else unchanged; only the resume of an attached worker without a bootstrap that counts joins the held ones |
| `WorkerGateRuns.SessionsAreAttachments` | src/browser/chromium-launcher.ts:341-352 | the session table is what the attach and detach events of an open context say |
| `WorkerGateRuns.GateIsOpenWhenBootstrapped` | src/browser/chromium-launcher.ts:237-251 | the gate of a worker is open exactly while a bootstrap of it counts |
| `WorkerGateRuns.OtherMessagesKeepTheirOrder` | src/browser/chromium-launcher.ts:353-370 | all messages but resumes reach the transport in the order they were sent, as managed |
| `WorkerGateEffects.ConfigurationFollowsPlan` | src/browser/chromium-launcher.ts:227-256 | the commands sent for an attachment are those of its plan, each once and in order; it waits for the last one sent and is done only when all were |
| `WorkerGateEffects.ChainsMoveByPlan` | src/browser/chromium-launcher.ts:227-256 | what each reply makes of an attachment: the next command, the end, or a failure |
| `WorkerGateEffects.RegistrationsAreAttachments` | src/browser/chromium-launcher.ts:227-274 | a target is registered with the first session that attached it, until that session detaches |
| `WorkerGateEffects.RawEventsMoveTheGate` | src/browser/chromium-launcher.ts:251-285 | gates open exactly when a setup is complete, and the context is asked to close exactly by a configuration that breaks down on a registered target or a detaching that drops resumes |
| `ProfileLeases.SessionManager.ContinueStart` | src/browser/session-manager.ts:617-621 | a granted lease is stored with its timer and the session registered; a refusal or a failed request leaves no trace |
| `ProfileLeases.SessionManager.FinishCleanup` | src/browser/session-manager.ts:657-665 | a failed start gives its lease back |
| `ProfileLeases.SessionManager.FinishStop` | src/browser/session-manager.ts:857-873 | a finished stop removes the session and releases its lease once |
| `ProfileLeases.SessionManager.ContinueRenewal` | src/browser/session-manager.ts:1335-1372 | a renewal is kept only for the entry it was about, otherwise given back; a loss stops the session |
| `ProfileLeases.SessionManager.ReleasePersistentProfile` | src/browser/session-manager.ts:1374-1388 | releasing forgets entry and timer before the request is sent, and does nothing the second time |
| `ProfileLeasesRuns.DepartedSessionsHoldNothing` | src/browser/session-manager.ts:843-877 | a stopped or failed session leaves no profile leased, even with a renewal still in flight |
| `ProfileLeasesRuns.LiveSessionsHoldTheirProfile` | src/browser/session-manager.ts:1312-1388 | a live session owns a lease exactly when it is persistent, and it holds a key exactly when that is its own and its lease has not lapsed |
| `ProfileLeasesRuns.QuiescentHoldsExactlyItsLeases` | src/browser/session-manager.ts:617-665 | a quiescent manager holds a key exactly when a live persistent session owns it with a lease that has not lapsed, and it holds it for that session |
| `ProfileLeasesRuns.NoTwoLiveOwners` | src/browser/session-manager.ts:1312-1323 | two live sessions share a (tenant, profile) key only if one of the two leases lapsed |
| `ProfileLeasesRuns.OneRenewalInFlight` | src/browser/session-manager.ts:1325-1350 | no renewal timer of a session fires while a renewal of it is in flight |
| `ProfileLeasesEffects.LiveSessionsKeepRenewing` | src/browser/session-manager.ts:1325-1372 | a live session that owns a lease has exactly one of two: its renewal timer armed, or one renewal of the stored lease in flight |
| `ProfileLeasesEffects.EntriesMoveByPhase` | src/browser/session-manager.ts:617-1388 | what every event does to the start, registration, lease, timer and renewal of a session |
| `ProfileLeasesEffects.StopsAreCarriedOut` | src/browser/session-manager.ts:843-877 | every lost lease is reported once, and every report and every stop call on a registered session starts one stop |
| `ProfileLeasesEffects.LeaseTableMoves` | src/browser/session-manager.ts:1312-1388 | who holds each key after every event, and which leases are given back |
| `StableJson.TextIdentifiesInput` | src/browser/browser-session.ts:2212-2218 | two inputs have the same canonical text exactly when they are equal up to key order and absent members |
| `StableJson.PrintIsCanonical` | src/browser/browser-session.ts:2212-2218 | the printed text is that of the value with sorted keys and without absent members |
| `ActionCache.IdempotentWrites.RunIdempotentWrite` | src/browser/browser-session.ts:1905-1948 | one call: refused, shared, a conflict or a new invocation, with pruning before and eviction after |
| `ActionCache.IdempotentWrites.Prune` | src/browser/browser-session.ts:1962-1966 | pruning removes exactly the expired entries and keeps the order |
| `ActionCache.RetryIsSharedOrConflicts` | src/browser/browser-session.ts:1911-1935 | while an id is cached, a call with it shares the first result when its input is equal up to key order, and conflicts otherwise |
| `ActionCache.SecondInvocationNeedsLeaving` | src/browser/browser-session.ts:1929-1947 | an id is invoked a second time only after its entry left the cache or expired |
| `ActionCache.SharedResultHasOneOrigin` | src/browser/browser-session.ts:1921-1941 | a shared result is that of one earlier invocation with the same id and input |
| `ActionCache.EntryLeaves` | src/browser/browser-session.ts:1942-1966 | an entry leaves only by expiry, by session stop, or behind 256 younger ones |
| `ActionCache.CacheIsBounded` | src/browser/browser-session.ts:453-454 | the cache holds at most 256 entries |
| `ActionCache.InvokesExactly` | src/browser/browser-session.ts:1911-1941 | an operation is invoked exactly by a call outside user control whose id is absent, or well formed and of no earlier call that is still cached and unexpired; user control and malformed ids change nothing |
| `ActionCache.CacheHoldsExactly` | src/browser/browser-session.ts:1937-1966 | what the cache holds after every event: nothing after a stop, after a look-up the new entry and the older ones that are neither expired nor behind 256 younger |
| `ActionCache.WellFormedIdsAreUuids` | src/browser/browser-session.ts:1915-1917 | the ids let through are exactly the UUIDs of versions 1 to 8 |
| `TabTable.Tabs.NotePageGeneration` | src/browser/browser-session.ts:1788-1798 | a change counts on the given or active tab, and on the session when that tab is active or gone |
| `TabTable.Tabs.RegisterTab` | src/browser/browser-session.ts:1661-1698 | a page not shown yet gets a new tab with the next name and revision zero |
| `TabTable.Tabs.FinishClose` | src/browser/browser-session.ts:755-765 | closing the active tab activates the first remaining one, or fails when none remains |
| `TabTable.TabIdsAreNeverReused` | src/browser/browser-session.ts:1661-1698 | the id of a tab that any event creates, a launch included, was never the id of a tab before, in this context or an earlier one |
| `TabTable.Base36IsInjective` | src/browser/browser-session.ts:1661-1680 | different counter values print as different base-36 names |
| `TabTable.RevisionCountsPageChanges` | src/browser/browser-session.ts:1788-1798 | a tab's revision never falls and rises by one with each change noted for it |
| `TabTable.GenerationMirrorsActiveTab` | src/browser/browser-session.ts:1700-1705 | `pageGeneration` equals the active tab's revision exactly when nothing was counted on the session alone |
| `TabTable.GuardPassesOnlyUnchanged` | src/browser/browser-session.ts:1871-1903 | a guard with the id and revision listed for any tab, active or not, passes later exactly while that tab is active, none of its changes was counted since and nothing is counted on the session alone (for ids and numbers the guard accepts at all) |
| `TabTable.PassedGuardPassesAgain` | src/browser/browser-session.ts:1871-1903 | a guard that passed once, drift or not, passes again exactly while that tab is active and its changes since and the present drift add up to the drift of then |
| `TabTable.OpenContextMirrorsUnlessDrifted` | src/browser/browser-session.ts:1524-1529 | while the context is open some tab is active, and `pageGeneration` is its revision exactly when nothing was counted on the session alone |
| `TabTable.LateCloseContinuationDrifts` | src/browser/browser-session.ts:735-753 | a concrete run in which the replacement branch of `closeTab` continues after a relaunch and `pageGeneration` parts from the active tab |
| `TabTable.DriftedGuardMissesAChange` | src/browser/browser-session.ts:1788-1798 | that run continued: a guard taken after the drift passes before and after a change of the tab it names |
| `TabTable.OpenContextMirrors` | src/browser/browser-session.ts:1524-1529 | a sufficient case: as long as no continuation of an earlier context has finished in a later one, the active tab is open and `pageGeneration` is its revision |
| `TabTableEffects.TabsMove` | src/browser/browser-session.ts:735-1698 | exactly which tabs an event opens and closes and which is active then: after the active tab closes, the one opened before all others |
| `TabTableEffects.TabsAreInOrder` | src/browser/browser-session.ts:1661-1698 | the open tabs are listed in the order they were opened, and no two show one page |
| `TabTableEffects.LaunchShowsItsPages` | src/browser/browser-session.ts:1524-1529 | after a launch exactly the main page and the retained pages are shown |
| `TabTableEffects.PageChangesCount` | src/browser/browser-session.ts:1788-1798 | a change counts for its tab, and on the session when that tab is active or no open tab is |
| `TabTableEffects.GuardAnswers` | src/browser/browser-session.ts:1871-1903 | which error the guard throws: for malformed arguments, for another tab, for another revision |
| `AccountHealthStates.AccountHealth.Perform` | src/account/account-health.ts:143-164 | each public operation either is refused with the first failing check and changes nothing, or makes its transition |
| `AccountHealthStates.AccountHealth.ApplyTransition` | src/account/account-health.ts:166-192 | the new snapshot of a transition, with the table of valid ones |
| `AccountHealthStates.AccountHealth.RecordBackoff` | src/account/account-health.ts:198-202 | one more failure and a retry time after a capped power of two |
| `AccountHealthStates.StateMatchesHistory` | src/account/account-health.ts:166-192 | the failure count is the number of accepted failures since the last accepted recovery; state and time stamp are those of the last accepted operation |
| `AccountHealthStates.SinceRecoveryIsTheSuffix` | src/account/account-health.ts:184-190 | "since the last recovery" is the longest suffix of the history without a recovery |
| `AccountHealthStates.BackoffDoubles` | src/account/account-health.ts:130-141 | a failing account is eligible exactly from lastUpdated + min(300000 * 2^(failures - 1), 86400000) on |
| `AccountHealthStates.DelayIsPlainDoubling` | src/account/account-health.ts:198-202 | the exponent cap of 30 never matters, and a day is reached with the tenth failure |
| `AccountHealthStates.ClosedUntilRecovered` | src/account/account-health.ts:130-164 | a quarantined or disabled account is ineligible and keeps its count until a recovery is accepted |
| `AccountHealthStates.RecoveryAlwaysWorks` | src/account/account-health.ts:20-56 | recovery is accepted from every state and makes the account eligible |
| `AccountHealthStates.SnapshotRoundTrip` | src/account/account-health.ts:97-128 | a reachable snapshot passes the constructor unchanged exactly when its numbers are safe integers |
| `AccountHealthStates.RefusedExactlyWhenShutOut` | src/account/account-health.ts:20-56 | in every run an operation with proper arguments is refused exactly when the account is closed to it, and a refusal changes nothing |
| `AccountHealthStates.ReasonMatchesHistory` | src/account/account-health.ts:166-192 | the reason is the one last given, unless a change of state without one forgot it |
| `AccountHealthStates.EligibleByState` | src/account/account-health.ts:130-141 | which reachable accounts may be tried: by state, a failing one from its retry time on |
| `AccountHealthStore.AccountHealthStore.BeginMutation` | src/account/account-health-store.ts:45-53 | a call queues behind the promise in the map and leaves its own; the whole new store is stated, other profiles included |
| `AccountHealthStore.AccountHealthStore.StartMutation` | src/account/account-health-store.ts:22-43 | a call goes on only when the promise before it is settled |
| `AccountHealthStore.AccountHealthStore.FinishMutation` | src/account/account-health-store.ts:54-59 | finishing opens the gate and clears the map entry only if it is still one's own |
| `AccountHealthStoreRuns.MutationsAreSerial` | src/account/account-health-store.ts:22-60 | in every interleaving the stored snapshot is the sequential fold of the successful calls in call order, and each call returned what it computes there |
| `AccountHealthStoreRuns.FailureChangesNothing` | src/account/account-health-store.ts:32-43 | a call that throws leaves the file alone |
| `AccountHealthStoreRuns.NobodyIsBlocked` | src/account/account-health-store.ts:45-60 | while calls are unfinished the first one can always move |
| `AccountHealthStoreRuns.OnlyTheFirstMoves` | src/account/account-health-store.ts:45-56 | a call may start exactly when it is the first unfinished one |
| `AccountHealthStoreRuns.CallsMoveByPhase` | src/account/account-health-store.ts:22-60 | where every event takes a call, with which error it fails, and that only a finished write changes the file |
| `AccountHealthStoreRuns.QueueIsEmptyWhenIdle` | src/account/account-health-store.ts:57-58 | the queue map has an entry for a profile exactly while one of its calls is unfinished |
| `AccountHealthStoreRuns.StoreMovesOneLane` | src/account/account-health-store.ts:22-60 | an event of the whole store moves the lane of the profile it names and no other |
| `AccountHealthStoreRuns.ProfilesAreIndependent` | src/account/account-health-store.ts:22-60 | in every run of the whole store each profile is where its own events alone would have brought it |
| `RawCdp.RawCdpConnection.HandleClose` | src/browser/raw-cdp-connection.ts:107-114 | closing rejects every pending command in order and empties the table |
| `RawCdp.RawCdpConnection.SendCommand` | src/browser/raw-cdp-connection.ts:50-74 | a command gets a new id and a timer, or is refused on a closed connection |
| `RawCdp.EachCommandSettlesOnce` | src/browser/raw-cdp-connection.ts:50-114 | in every run a command is settled exactly once, when it leaves the table, and all are settled when the connection is closed |
| `RawCdp.ClosedStaysClosed` | src/browser/raw-cdp-connection.ts:76-81 | a closed connection stays closed and issues no further id |
| `RawCdp.FirstVerdictCounts` | src/browser/raw-cdp-connection.ts:56-114 | a command is settled with what the first event after it that concerns it says, whatever comes later, and is pending until then |
| `RawCdp.IssuesExactly` | src/browser/raw-cdp-connection.ts:50-57 | a command is issued exactly on a connection that neither side has closed and that has not failed |
| `WorkerPool.Pool.ContinueWorker` | scripts/run-account-scale-benchmark.ts:41-45 | a worker takes the next shared index or leaves the loop |
| `WorkerPool.ResultsAreInPlace` | scripts/run-account-scale-benchmark.ts:31-50 | in every interleaving a task is untaken, in one worker's hands, or done with its own result in its own place |
| `WorkerPool.PoolCompletesUnlessEmpty` | scripts/run-account-scale-benchmark.ts:31-50 | when all workers have left, every result is there exactly if the concurrency was at least one or there was no task |
| `WorkerPool.WorkersMoveByPhase` | scripts/run-account-scale-benchmark.ts:31-50 | what each worker does next: it takes the next task or leaves, stores its result, or ends when the iterator throws |
| `TextSimilarity.EditDistance` | src/browser/adaptive-locator.ts:33-61 | the filled table's corner is the recursive edit distance |
| `TextSimilarity.EntryIsDistance` | src/browser/adaptive-locator.ts:46-58 | every table entry is the distance of the two prefixes it stands for |
| `TextSimilarity.DistanceIsShortestScript` | src/browser/adaptive-locator.ts:46-61 | the distance is the length of the shortest script of deletions, insertions and replacements |
| `TextSimilarity.DistanceIsSymmetric` | src/browser/adaptive-locator.ts:46-61 | the distance is symmetric |
| `TextSimilarity.TriangleInequality` | src/browser/adaptive-locator.ts:46-61 | the distance obeys the triangle inequality |
| `TextSimilarity.CalculateTextSimilarity` | src/browser/adaptive-locator.ts:19-63 | the score is the similarity of the normalised strings |
| `TextSimilarity.SimilarityIsSymmetric` | src/browser/adaptive-locator.ts:19-63 | similarity is symmetric |
| `TextSimilarity.SimilarityRange` | src/browser/adaptive-locator.ts:19-63 | similarity lies in [0, 1] and is 1 exactly for equal normalised strings |
| `TextSimilarity.ContainmentScoresHigher` | src/browser/adaptive-locator.ts:28-31 | the containment score is never below the edit-distance score of the same pair |
| `TextSimilarity.ScoresByCase` | src/browser/adaptive-locator.ts:19-63 | which score applies: equality, emptiness, one string inside the other, or the rest |
| `TextSimilarity.ContainmentScoreIsExact` | src/browser/adaptive-locator.ts:28-31 | the cap on the containment score never shows |
| `TextSimilarity.DistanceScoreIsExact` | src/browser/adaptive-locator.ts:60-62 | nor does the floor under the distance score |
| `TextSimilarity.FindAdaptiveTarget` | src/browser/adaptive-locator.ts:123-161 | a node is chosen exactly when it is the earliest best one above the threshold and leads every other by the margin, with its confidence |
| `ProfilePaging.ListProfiles` | src/api/server.ts:424-464 | a page is the cut of the sorted matches behind the cursor; a malformed cursor is refused |
| `ProfilePaging.ListingHasTheMatches` | src/api/server.ts:424-427 | the listing holds exactly the matching profiles, in strict (updatedAt, profileId) descending order |
| `ProfilePaging.ListingDescends` | src/api/server.ts:424-427 | the listing goes from newest to oldest, equally new profiles by descending id |
| `ProfilePaging.TraversalIsComplete` | src/api/server.ts:429-464 | following the cursors returns the whole listing in order, in max(1, ceil(n/limit)) pages |
| `ProfilePaging.PageCountIsCeiling` | src/api/server.ts:452-460 | the page count is that ceiling |
| `ProfilePaging.UnchangedProfilesAppearOnce` | src/api/server.ts:429-464 | a profile that stays and matches is returned exactly once, whatever happens to others between the pages |
| `ProfilePaging.NextCursorIsAccepted` | src/api/server.ts:1858-1861 | a cursor the server hands out is the key of a listed profile and passes the schema if such keys do |
| `Csv.ParseCsvLine` | src/api/server.ts:1917-1932 | the loop computes the trimmed fields of the line |
| `Csv.ParseInvertsPrint` | src/api/server.ts:1917-1936 | parsing a row of quoted cells joined by commas gives back exactly the trimmed fields, for all fields |
| `Csv.ParsedLinesAreStable` | src/api/server.ts:1475-1480 | printing and parsing what was parsed from any line changes nothing |
| `Csv.EmptyRowsGainAField` | src/api/server.ts:1917-1932 | the one row that does not come back is the empty one |
| `Csv.UnquotedLinesSplit` | src/api/server.ts:1917-1932 | unquoted cells are separated by commas, full-width commas and tabs in any mixture, and by nothing else |
| `Csv.TrimCutsTheEnds` | src/api/server.ts:1927-1930 | trimming cuts all white space at both ends and nothing else |
| `Totp.Base32ToBuffer` | src/auth/totp.ts:10-23 | the two loops compute the decoded bytes |
| `Totp.IndexOfIsThePosition` | src/auth/totp.ts:8-14 | the index of a character is its only position in the alphabet, and there is none exactly for characters outside it |
| `Totp.DecodeInvertsEncode` | src/auth/totp.ts:10-23 | decoding inverts the encoder of RFC 4648, section 6, for every byte string and every text with the same significant characters, for any upper-casing that is standard on ASCII |
| `Totp.SkippedCharactersDoNotMatter` | src/auth/totp.ts:11-16 | a character whose upper case is outside the alphabet changes nothing wherever it stands |
| `Totp.SkippedCharactersAreOutside` | src/auth/totp.ts:11-16 | spaces, dashes and padding are such characters |
| `Totp.LetterCaseDoesNotMatter` | src/auth/totp.ts:11-11 | texts whose characters have the same upper case decode alike |
| `Totp.Truncate` | src/auth/totp.ts:37-45 | the code has six digits and is the 31-bit truncation of RFC 4226, section 5.3, modulo a million |
| `Totp.TruncationReadsFourBytes` | src/auth/totp.ts:37-45 | the truncated value by its four bytes, for every MAC |
| `Totp.PublishedExampleTruncates` | src/auth/totp.ts:37-45 | the worked example of RFC 4226, section 5.4, gives 872921 |
| `Totp.CounterBytesReadBack` | src/auth/totp.ts:33-34 | the eight counter bytes are big-endian |
| `Totp.GenerateTotp` | src/auth/totp.ts:25-50 | for a time step of any sign or fraction: the code for the current counter and the remaining seconds, and the two fixed answers for no secret and for a counter that does not exist or does not fit |
| `Totp.CounterHoldsForTheRemainingSeconds` | src/auth/totp.ts:29-31 | the counter stays for exactly the remaining seconds and is then the next one (RFC 6238, section 4.2) |
| `Totp.CounterIsTheStepOfTheClock` | src/auth/totp.ts:29-31 | the counter is the number of whole steps in the whole seconds of the clock, and what remains is missing to the next step |
| `Totp.NegativeStepOfTheClock` | src/auth/totp.ts:29-31 | the same two numbers for a negative step |
| `Utf8.TruncationKeepsWhatFits` | src/browser/semantic-snapshot.ts:197-208 | for every text the result is what fits without U+FFFD at its end, with its exact byte count within the limit |
| `Utf8.TruncationIsTheLongestPrefix` | src/browser/semantic-snapshot.ts:197-208 | for well-formed text it is the longest prefix that fits exactly when that prefix does not end in U+FFFD or nothing was cut |
| `Utf8.TruncatedMeansShorter` | src/browser/semantic-snapshot.ts:200-207 | truncation is flagged exactly when text was dropped |
| `Utf8.GenuineReplacementIsLost` | src/browser/semantic-snapshot.ts:204-206 | a concrete text that loses a genuine U+FFFD although it fits |
| `Utf8.DecodeOfCutText` | src/browser/semantic-snapshot.ts:202-203 | cutting encoded text anywhere and decoding it gives the whole characters and at most one U+FFFD |
| `Utf8.OnlyEncodingsDecode` | src/browser/semantic-snapshot.ts:202-203 | the decoder takes nothing but encodings for characters |
| `Utf8.AddCompactSnapshotContent` | src/browser/semantic-snapshot.ts:122-168 | the content is the cut of the joined lines, never exceeds its clamped limit, and holds every target line and the page text if nothing was cut; the compact form drops the originals; the page revision falls back to the generation |
| `Utf8.ContentIsLaidOut` | src/browser/semantic-snapshot.ts:127-138 | the text of a full snapshot, from the first line to the last |
| `InventoryWalk.Walk` | src/browser/custom-chromium-runtime.ts:65-86 | the walk terminates on every tree and accepts exactly when it holds only permitted directories and files and the files but the manifest are the listed ones with their hashes |
| `InventoryWalk.VerifyCore` | src/browser/custom-chromium-runtime.ts:50-86 | the custom core is accepted exactly with the recorded executable and the library listed, a well-formed inventory and a matching tree |
| `InventoryWalk.VerifyChromix` | src/browser/chromix-runtime.ts:34-76 | the other distribution is accepted exactly with its pinned files and pinned inventory, under its stricter name policy, and a matching tree |
| `InventoryWalk.CheckChromixInventory` | src/browser/chromix-runtime.ts:42-49 | an inventory passes exactly when all names are safe, all digests well formed and no two names differ only by case |
| `InventoryWalk.AcceptedTreesAgree` | src/browser/custom-chromium-runtime.ts:65-86 | two accepted trees hold the same files, manifests aside |
| `InventoryWalk.TreePathsDiffer` | src/browser/custom-chromium-runtime.ts:69-77 | no two files of a tree share a relative path |
| `InventoryWalk.ChromixIsStricter` | src/browser/chromix-runtime.ts:58-68 | a tree that is clean under the stricter policy is clean under the plain one |
| `InventoryWalk.CleanEntries` | src/browser/custom-chromium-runtime.ts:65-86 | in an accepted tree every entry at any depth is a regular file or a directory with a permitted name |
| `InventoryWalk.AcceptedCoreHasItsFiles` | src/browser/custom-chromium-runtime.ts:55-86 | an accepted core has the executable of its platform with the recorded hash, and on Windows the library |
| `InventoryWalk.InventoriesAreChecked` | src/browser/chromix-runtime.ts:42-49 | what refuses an inventory: an unsafe name, a malformed digest, or two names that differ only by case |
| `Redaction.SanitizeRecordInto` | src/domain.ts:249-283 | the loop builds the redacted record |
| `Redaction.ErrorDetailsKeepSecrets` | src/domain.ts:225-283 | details that differ only in sensitive values, in input content of equal length, in the removed part of a URL, in an error beyond its name, in target fields that are unsafe or clipped, or beyond the limits are reported the same |
| `Redaction.ErrorDetailsAreShallow` | src/domain.ts:225-247 | reported values nest at most ten deep, however deep the input is |
| `Redaction.ErrorDetailsShowOnlyVisibleKeys` | src/domain.ts:225-297 | what is reported holds no sensitive or input key at any level, and targets only short plain values under safe keys, whatever kind of value comes in |
| `Redaction.PlainDetailsAreKept` | src/domain.ts:225-283 | a scalar under plain keys, up to four records deep, is reported in its place; only texts lose the query part of URLs |
| `Redaction.PlainKeysAreReported` | src/domain.ts:249-283 | every plain key is reported with its last value, and no other plain key is |
| `Redaction.ItemsAreKept` | src/domain.ts:231-233 | the first 64 items of a list are reported in their places |
| `Redaction.InputLengthIsReported` | src/domain.ts:261-264 | of inputs only the length of the last text is reported |
| `Redaction.TargetsAreReported` | src/domain.ts:255-260 | a target is reported as what is left of its last value |
| `Redaction.SafeTargetKeysAreReported` | src/domain.ts:285-297 | a target shows the last plain value under each safe key, cleaned and clipped |

## Left out

- Real Playwright, CDP, WebSocket, HTTP, Redis, file and process calls: events with arbitrary outcomes stand for them.
- The studio UI, launcher, extension, crawl scripts, build tooling, fingerprint generation, launch flags and page-evaluated scripts: no state machine or algorithm of their own.
- Route dispatch, role tables, configuration constants, login matrix and capacity thresholds: short case analyses that would only add easy members.
- The workflow runner, target registry, snapshot history, profile store and URL policy: not part of this model.
- `scoreCandidate`: a sum of constant weights, rounded to three digits; the choice takes its scores as given.
- `formatTarget`, `singleLine`, `compactText`: formatting; the compact snapshot takes them as parameters.
- Session and workspace expiry timers with generations: the lease manager's timers and the lease's expiry show the same pattern.
- Overlap of manager shutdown with starts, and the session-count bound under overlapping starts: the code does not support them.
- TTL expiry of sessions appears in `ProfileLeases` only as a stop call at any moment.
- ProfileLeasesRuns.QuiescentHoldsExactlyItsLeases: a release request that fails for good is one that never takes effect in the model; the key is then freed only by its lapse.
- ProfilePaging.TraversalIsComplete: cursors are what they decode to, so base64 and JSON are not modelled; `boundedQueryInteger` is not, and the limit is any positive number.
- WorkerGateRuns.OpenGateIsCurrent: one direction, under a condition on acknowledgements that the code does not ensure; the exact condition is in `CurrentMeansLively`.
- TabTable.OpenContextMirrors: one direction, under a condition on continuations that the code does not ensure; the exact condition is in `OpenContextMirrorsUnlessDrifted`.
- TabTable.Tabs.FinishClose: the flag for the main tab is not modelled.
- ProfileLeases.SessionManager.ContinueStart: `profileIdBySession` (src/browser/session-manager.ts:622) is not modelled, as only health and checkpoints read it; nor is an acquire request that takes effect but whose answer is lost.
- Csv.ParseInvertsPrint: one line at a time; splitting a file into lines before parsing would break a field that contains a line break.
- InventoryWalk.VerifyCore: the checks before the inventory (platform, real paths, regular files, the other fields of the record) are not modelled.
- InventoryWalk.VerifyChromix: the same checks before the inventory are not modelled.
- Utf8.AddCompactSnapshotContent: a limit that is not a number is not modelled.
- Redaction.SanitizeRecordInto: items of an array are redacted by a function and not by a loop, as the source maps over them.
