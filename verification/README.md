# Vulnerability dashboard web client: a verified model

The vulnerability web client loads findings and sync runs from its server, keeps them fresh while
several requests and a server event stream overlap, compacts findings into ticket groups, and prints
state into downloads and links. This project models that logic in Dafny and proves what it keeps.

- **Live refresh and requests.** `LiveRefresh` is the debounced single-flight runner,
  `LatestRequest` the latest-request-wins coordinator, `DashboardSession` the dashboard loads with
  their two revision watermarks and the stream handler, `Revisions` the revision comparison, and
  `FindingsLoader` the generation-guarded loader. Each is a step function over a state, theorems over
  all runs of steps chosen by the environment, and a class whose methods are the atomic steps of the
  source between `await`s, proved to refine the step function. `LiveDashboard` runs the stream handler,
  the runner and the loads together.
- **Sync All.** `SyncProgress` normalises, merges and displays progress messages; `SyncRun` is the
  start, recover, receive and dismiss protocol over one active run id.
- **The event stream.** `SseStream` is the incremental parser, checked against parsing the whole text
  at once and against the frames the server writes.
- **Compaction.** `Families` resolves what findings are compacted by, `Compaction` is the grouping
  fold, `TicketContents` what a ticket collects and chooses from its findings, `CompactionOrder` its
  independence of input order, `CompactionKeys` and `SyncKeys` the sync keys derived from groups and
  what they tell, `LegacyIds` the finding ids printed into the older of them, `StableHash` the 53-bit
  hash, `Versions` and `Titles` the version order and what is chosen by it, `TenableCutter` the cutting
  of repeated text blocks.
- **Sync history.** `SyncHistory` computes new findings per run, `SyncGroups` rolls runs up into
  engagements and companies.
- **Printers.** `Csv` is the log download read back by section 2 of RFC 4180; `FormUrl` is
  application/x-www-form-urlencoded (section 5 of the WHATWG URL Standard) over UTF-8, and
  `FindingRoutes` the hash routes built on it.
- **Shared.** `Orders` (comparators and the stable sort), `OrderedMap` (JavaScript's `Map` and `Set`),
  `Folding` (order-independent folds), `Text`, `Numerals`, `Options`.

Where a wished-for property fails, the model keeps the code as it is, and a lemma gives the failing
case next to the condition under which the code meets it: a refresh stranded off route, a retry that
supersedes the load of a newly selected year, two starts within one render, a throwing error handler,
fractional phases, malformed revisions, tied ids, the reading of a one-column download, separators in
ids, products and titles.

Assumptions on what the model cannot see are parameters or preconditions: the collation is a total
preorder that ranks numerals by their numbers (`Locale.Collates`), in `LegacyIds` whatever their
leading zeros (`ZerosTie`), lower-casing acts on ASCII letters as usual (`LowersAscii`, `LowersNames`), does not reach
across a separator (`LowersApart`), does nothing twice and keeps clean text clean (`LowersText`), a
server tells the truth about revisions (`Honest`), and the disclaimer found in a text window ends
within it (`StaysInWindow`).

## Model

| member | source | states |
|---|---|---|
| LiveRefresh.RunsKeepInvariant | apps/vulnerability/web/src/app/liveDataRefreshCoordinator.js:16-68 | in every run of schedule, timer, completion, cancel and dispose steps the platform holds exactly the timer the coordinator believes in, none is pending while a refresh runs, and a disposed coordinator owes nothing |
| LiveRefresh.RunsNeverOverlap | apps/vulnerability/web/src/app/liveDataRefreshCoordinator.js:25-43 | refreshes started and refreshes settled differ by one while `running` is set and by nothing otherwise: two never overlap |
| LiveRefresh.StartsNeverExceedSchedules | apps/vulnerability/web/src/app/liveDataRefreshCoordinator.js:30-55 | refreshes started, plus the one still owed, never outnumber accepted `schedule` calls |
| LiveRefresh.AcceptedScheduleIsOwed | apps/vulnerability/web/src/app/liveDataRefreshCoordinator.js:45-55 | an accepted `schedule` is owed by a pending timer or the queued flag until a later refresh starts or it is cancelled or disposed of |
| LiveRefresh.SchedulesAreAcceptedExactly | apps/vulnerability/web/src/app/liveDataRefreshCoordinator.js:45-55 | in every run a `schedule` is accepted if and only if the coordinator was not disposed of before, whatever it is doing |
| LiveRefresh.RefreshIsOwedExactly | apps/vulnerability/web/src/app/liveDataRefreshCoordinator.js:45-68 | in every run a refresh is owed if and only if some `schedule` came before any `dispose` and nothing since has started a refresh or called it off |
| LiveRefresh.CallingOffClears | apps/vulnerability/web/src/app/liveDataRefreshCoordinator.js:57-68 | cancelling or disposing leaves no timer and nothing owed, and does not touch a refresh under way |
| LiveRefresh.LoopGoesRound | apps/vulnerability/web/src/app/liveDataRefreshCoordinator.js:32-42 | for instance a refresh asked for while one runs does run, and then the loop ends |
| LiveRefresh.OwedRefreshIsServedNext | apps/vulnerability/web/src/app/liveDataRefreshCoordinator.js:21-43 | whatever is owed can be served: a running refresh or a live timer exists, and either of them, when due, starts a refresh and clears the debt |
| LiveRefresh.DisposalIsFinal | apps/vulnerability/web/src/app/liveDataRefreshCoordinator.js:65-68 | after `dispose` nothing is accepted and nothing starts, whatever timers and replies still arrive |
| LiveRefresh.ThrowingHandlerStrands | apps/vulnerability/web/src/app/liveDataRefreshCoordinator.js:31-42 | if `onError` itself throws, a refresh is left owed with no step that could serve it exactly when one was queued behind the failed one |
| LiveRefresh.Coordinator.Schedule | apps/vulnerability/web/src/app/liveDataRefreshCoordinator.js:45-55 | the atomic step of the source on its fields: accepts and either queues, keeps or sets the timer, as `Next` says |
| LiveRefresh.Coordinator.TimerFires | apps/vulnerability/web/src/app/liveDataRefreshCoordinator.js:21-43 | the atomic step of the source on its fields: starts a refresh or gives up, as `Next` says |
| LiveRefresh.Coordinator.RunSettles | apps/vulnerability/web/src/app/liveDataRefreshCoordinator.js:32-42 | the atomic step of the source on its fields: loops when a refresh is queued and the coordinator lives, else goes idle, as `Next` says |
| LiveRefresh.Coordinator.Cancel | apps/vulnerability/web/src/app/liveDataRefreshCoordinator.js:57-63 | the atomic step of the source on its fields: drops the timer and the queued flag and nothing else |
| LiveRefresh.Coordinator.Dispose | apps/vulnerability/web/src/app/liveDataRefreshCoordinator.js:65-68 | the atomic step of the source on its fields: disposes and cancels |
| LatestRequest.Coordinator.Begin | apps/vulnerability/web/src/app/latestRequestCoordinator.js:6-16 | every request issued before is aborted, the new one is fresh, holds the next id and is the current one |
| LatestRequest.Coordinator.IsCurrent | apps/vulnerability/web/src/app/latestRequestCoordinator.js:18-26 | for a request this coordinator issued, the id, scope and abort checks together hold exactly for the latest uncancelled request under its own scope |
| LatestRequest.Coordinator.Cancel | apps/vulnerability/web/src/app/latestRequestCoordinator.js:28-32 | every issued request is aborted and none is current |
| Revisions.DecimalRevisionsCompareAsNumbers | apps/vulnerability/web/src/app/App.jsx:96-104 | on decimal texts the comparison is the order of the numbers, and equal texts are equal numbers |
| Revisions.ComparisonIsAntisymmetric | apps/vulnerability/web/src/app/App.jsx:96-104 | any two revisions, malformed ones included, compare with opposite signs the two ways round |
| Revisions.UnmixedRevisionsChain | apps/vulnerability/web/src/app/App.jsx:96-104 | any three revisions chain unless exactly two of them are readable numbers: transitivity holds among readable and among malformed ones |
| Revisions.AgreeingRevisionsChain | apps/vulnerability/web/src/app/App.jsx:96-104 | mixed revisions chain too when the readable ones collate like their numbers, so only a disagreement of the two branches can break the order |
| Revisions.MalformedRevisionsCanCycle | apps/vulnerability/web/src/app/App.jsx:96-104 | two readable revisions that collate against their numbers and a malformed one between them form a cycle |
| DashboardSession.RunsKeepInvariant | apps/vulnerability/web/src/app/App.jsx:585-719 | in every run of overlapping loads, replies, scope changes, stream events and cancels: ids are issued in order, the current request is a known load, the list on display is by a finished load, requested is never behind published |
| DashboardSession.PublishedNeverGoesBack | apps/vulnerability/web/src/app/App.jsx:691-700 | if the server revision only grows and replies report a revision read after their fetch was issued, the published list revision never falls between sign-outs, however loads interleave |
| DashboardSession.ListComesFromCurrentLoad | apps/vulnerability/web/src/app/App.jsx:589-616 | after any run, a list goes up only by the settling of the one current load, which is then finished, and goes down only when a year is selected or the list is cleared |
| DashboardSession.ListIsOfItsYear | apps/vulnerability/web/src/app/App.jsx:691-696 | in every run the list on display is of the year on display, by a finished load |
| DashboardSession.AnnouncedRevisionsAreShown | apps/vulnerability/web/src/app/App.jsx:1301-1314 | end to end, whatever overlaps in between: once the stream announces a revision, every load begun after that and publishing shows that revision or a later one, until sign-out |
| DashboardSession.RefreshIsAskedExactly | apps/vulnerability/web/src/app/App.jsx:1301-1314 | after any run the stream handler asks for a refresh if and only if the event is heeded and names no revision or one above both watermarks, and raises the requested watermark only then |
| DashboardSession.OnlyEventsAskForRefresh | apps/vulnerability/web/src/app/App.jsx:1301-1314 | no other step of the page asks for one |
| DashboardSession.AheadMeansAskedFor | apps/vulnerability/web/src/app/App.jsx:1306-1314 | in every run with an honest server, whenever the requested watermark is ahead of the published one, an event since the last sign-out announced exactly that revision and asked for a refresh |
| LiveDashboard.AnnouncedRevisionIsPursued | apps/vulnerability/web/src/app/App.jsx:1260-1314 | for the stream handler, the refresh runner and the dashboard loads together, in every interleaving: while an announced revision is not yet published, a refresh is owed, or a load that wants that revision has begun since, or the stream was closed |
| LiveDashboard.PokedRefreshIsOwed | apps/vulnerability/web/src/app/App.jsx:1264-1340 | coming back online or into view leaves a refresh owed if and only if the stream was not closed; closing it leaves none owed |
| LiveDashboard.OwedLoadBeginsNext | apps/vulnerability/web/src/app/App.jsx:947-956 | and while one is owed, whatever step of the runner is due begins a load that wants the revision requested |
| DashboardSession.AttemptsAreBounded | apps/vulnerability/web/src/app/App.jsx:607-644 | in every run a load makes three attempts at most, and only one without a snapshot goes on to the recovery fetch |
| DashboardSession.AttemptSettles | apps/vulnerability/web/src/app/App.jsx:607-709 | replies of the current load that agree, or of which one failed, go on display and end it; diverging ones show nothing and are tried again, until the third time, after which a load with a snapshot gives up and one without recovers |
| DashboardSession.RecoverySettles | apps/vulnerability/web/src/app/App.jsx:636-656 | the recovery fetch shows both replies, agreeing or not, if both succeed, and else nothing |
| DashboardSession.PageStepsLeave | apps/vulnerability/web/src/app/App.jsx:459-491 | selecting a year leaves it on display without a list and its load current; leaving or signing out makes no request current, and signing out resets the watermarks and nothing else |
| DashboardSession.PublishingCatchesUp | apps/vulnerability/web/src/app/App.jsx:694-700 | a load that publishes shows at least the watermark wanted when it began, and display and watermark meet if nothing newer was asked for since |
| DashboardSession.SupersededStaysSuperseded | apps/vulnerability/web/src/app/latestRequestCoordinator.js:6-32 | a request that was superseded or cancelled is never current again in any continuation of the run |
| DashboardSession.StaleSummaryExactlyFromRecovery | apps/vulnerability/web/src/app/App.jsx:636-682 | replies to a load that is not current change the summary exactly if that load had reached the recovery fetch and both replies succeed, and never change the list |
| DashboardSession.SummaryComesFromLatestRequest | apps/vulnerability/web/src/app/App.jsx:588-682 | although the recovery fetch does not check, after any run a summary goes up only by the settling of the one current load, for the year on display, when aborted fetches reject |
| DashboardSession.LoadServesItsYearExactly | apps/vulnerability/web/src/app/App.jsx:585-616 | after any run, a load that begins can put up its list before another begins, by some replies of an honest server with aborts honoured, if and only if it is for the year on display |
| DashboardSession.OtherYearLoadStrands | apps/vulnerability/web/src/app/App.jsx:585-616 | a load begun for another year than the one on display supersedes the load of that year and nothing goes up until another load begins |
| DashboardSession.OldRetryStrandsNewYear | apps/vulnerability/web/src/app/App.jsx:626-634 | it happens: a run of eight steps in which a diverging load of one year sets a retry, another year is selected, and the retry of the first begins and ends with the second on display and no list; the Sync All completion callback (line 1026) keeps the year of its render in the same way |
| DashboardSession.DivergentPairOnlyFromRecovery | apps/vulnerability/web/src/app/App.jsx:611-656 | summary and list put up together report one and the same revision unless they came by the recovery fetch |
| DashboardSession.Session.Begin | apps/vulnerability/web/src/app/App.jsx:585-597 | the step on the mutable refs refines `Next`: a load up to its first await |
| DashboardSession.Session.PutOnDisplay | apps/vulnerability/web/src/app/App.jsx:658-709 | the step on the mutable refs refines `Next`: the summary unconditionally, the list and the watermarks if still current |
| DashboardSession.Session.Finish | apps/vulnerability/web/src/app/App.jsx:658-719 | the step on the mutable refs refines `Next`: putting accepted replies on display and ending |
| DashboardSession.Session.Settles | apps/vulnerability/web/src/app/App.jsx:611-709 | the step on the mutable refs refines `Next`: both replies of an attempt or of the recovery fetch |
| DashboardSession.Session.OnEvent | apps/vulnerability/web/src/app/App.jsx:1301-1314 | the step on the mutable refs refines `Next`: the stream handler |
| DashboardSession.Session.SelectYear | apps/vulnerability/web/src/app/App.jsx:459-491 | the step on the mutable refs refines `Next`: the list is cleared, the year on display changes and its load begins |
| DashboardSession.Session.ClearList | apps/vulnerability/web/src/app/App.jsx:2110-2112 | the step on the mutable refs refines `Next`: the list is cleared |
| DashboardSession.Session.Unmount | apps/vulnerability/web/src/app/App.jsx:465-468 | the step on the mutable refs refines `Next`: the coordinator is cancelled |
| DashboardSession.Session.SignOut | apps/vulnerability/web/src/app/App.jsx:1385-1403 | the step on the mutable refs refines `Next`: sign-out resets the watermarks and cancels |
| FindingsLoader.RunsKeepInvariant | apps/vulnerability/web/src/app/App.jsx:513-583 | in every run at most one outstanding load is of the current generation, and one is exactly while `inFlight` is set |
| FindingsLoader.OnlyTheCurrentLoadPublishes | apps/vulnerability/web/src/app/App.jsx:531-535 | findings go on display if and only if the load of the current generation brings them while the route needs them, in place of those of an older generation, and go down exactly with the dashboard |
| FindingsLoader.EnteringFetches | apps/vulnerability/web/src/app/App.jsx:573-577 | entering a route that needs findings with none on display leaves a load of the current generation under way, a new one unless there was one |
| FindingsLoader.EnteringKeepsSnapshot | apps/vulnerability/web/src/app/App.jsx:573 | with findings on display, or without a user, entering fetches nothing |
| FindingsLoader.FetchBeginsExactly | apps/vulnerability/web/src/app/App.jsx:513-527 | a direct call begins a load if and only if there is a user, the route needs findings and no load of the current generation is outstanding |
| FindingsLoader.BeginsWithARequest | apps/vulnerability/web/src/app/App.jsx:519-527 | a load begins exactly with one new request, which is then the one of the current generation |
| FindingsLoader.DashboardClears | apps/vulnerability/web/src/app/App.jsx:557-572 | entering the dashboard leaves nothing on display, under way, queued or due |
| FindingsLoader.DashboardDisownsLoads | apps/vulnerability/web/src/app/App.jsx:557-572 | a load outstanding when the dashboard route is entered is of an older generation for ever after, so it never publishes |
| FindingsLoader.QueuedRefreshBeginsOnSettling | apps/vulnerability/web/src/app/App.jsx:539-550 | when the current load settles another begins exactly if a refresh is queued and the route still needs findings |
| FindingsLoader.MidFlightRefreshIsRemembered | apps/vulnerability/web/src/app/App.jsx:515-518 | a refresh asked for mid-flight stays queued until a load begins or the dashboard resets, in every run |
| FindingsLoader.MidFlightRefreshIsServed | apps/vulnerability/web/src/app/App.jsx:515-550 | while the route keeps needing findings it is answered by a later load, or the load under way will answer it |
| FindingsLoader.RefreshCanBeStranded | apps/vulnerability/web/src/app/App.jsx:545-573 | otherwise it can be stranded: a run of eight steps that ends on the findings route with the refresh queued, nothing under way and nothing due |
| FindingsLoader.Loader.Fetch | apps/vulnerability/web/src/app/App.jsx:513-527 | the step on the mutable refs refines `Next`: `fetchFindings` up to its await |
| FindingsLoader.Loader.Settles | apps/vulnerability/web/src/app/App.jsx:531-550 | the step on the mutable refs refines `Next`: a reply or failure of a load |
| FindingsLoader.Loader.RouteEffect | apps/vulnerability/web/src/app/App.jsx:555-583 | the step on the mutable refs refines `Next`: the route effect |
| FindingsLoader.Loader.Microtask | apps/vulnerability/web/src/app/App.jsx:575-577 | the step on the mutable refs refines `Next`: the queued microtask |
| SyncProgress.ServerMessagesAdvance | apps/vulnerability/web/src/features/sync-all/syncAllProgress.js:200-207 | within a run a v3 message leaves the record as it is or strictly raises its sequence |
| SyncProgress.ExactlyLegacyMessagesRewind | apps/vulnerability/web/src/features/sync-all/syncAllProgress.js:160-207 | within a run the merge lowers the sequence exactly for messages outside the v3 contract that name a lower one |
| SyncProgress.MergeUpdatesFields | apps/vulnerability/web/src/features/sync-all/syncAllProgress.js:127-207 | a message is dropped if and only if the server numbered it, it is of the run of the record and it is no news; any other updates the record field by field: the status by name, the phase by the first field given, given fields replacing, absent ones staying, counters adding up |
| SyncProgress.FoldYieldsHighest | apps/vulnerability/web/src/features/sync-all/syncAllProgress.js:160-207 | folding full snapshots of one run, in any order and with any repetition, yields the normal form of the snapshot of highest sequence |
| SyncProgress.FoldMirrorsHighest | apps/vulnerability/web/src/features/sync-all/syncAllProgress.js:127-198 | so every field of the folded record is that of the highest snapshot: run, sequence, status by name, phase, scope, work, counters, notices, times, result and error |
| SyncProgress.DeliveryOrderIsIrrelevant | apps/vulnerability/web/src/features/sync-all/syncAllProgress.js:200-207 | two deliveries of the same set of snapshots fold to the same record |
| SyncProgress.HundredMeansComplete | apps/vulnerability/web/src/features/sync-all/syncAllProgress.js:376-399 | the percentage is 100 exactly if the status is complete, stays within 0 and 100, and the phase number stays within the total |
| SyncProgress.WorkFractionIs | apps/vulnerability/web/src/features/sync-all/syncAllProgress.js:373-375 | the work fraction is the share of work done, nothing without a total and never more than all |
| SyncProgress.PercentIsNearest | apps/vulnerability/web/src/features/sync-all/syncAllProgress.js:376-380 | below the cap the percentage is within half a point of the share of phases done |
| SyncProgress.PercentIsCapped | apps/vulnerability/web/src/features/sync-all/syncAllProgress.js:376-380 | above that it stays at 99, and at 0 with no phases to count |
| SyncProgress.PhaseNumberIs | apps/vulnerability/web/src/features/sync-all/syncAllProgress.js:381-399 | the phase number is the phase under way counted from one, and the total once complete |
| SyncProgress.PercentFollowsPosition | apps/vulnerability/web/src/features/sync-all/syncAllProgress.js:372-380 | before completion, with the phase total fixed, the percentage does not fall while phase index plus work fraction does not |
| SyncProgress.PercentFollowsPhases | apps/vulnerability/web/src/features/sync-all/syncAllProgress.js:372-380 | for whole phase indexes, not falling lexicographically in (index, work fraction) is enough |
| SyncProgress.StepIsSafeExactly | apps/vulnerability/web/src/features/sync-all/syncAllProgress.js:372-380 | a rise of the phase index never lowers the percentage, for every work fraction and every total, if and only if it is a whole phase at least |
| SyncProgress.FractionalPhasesCanFallBack | apps/vulnerability/web/src/features/sync-all/syncAllProgress.js:372-380 | for instance the percentage falls from 20 to 15 as the index rises from 1 to 1.5 |
| SyncRun.ActiveRunOwnsProgress | apps/vulnerability/web/src/features/sync-all/useSyncAll.js:83-139 | in every run of start, recover, receive, reply, dismiss and render steps: while a run is active the progress held is its own |
| SyncRun.ForeignEventsLeaveNoTrace | apps/vulnerability/web/src/features/sync-all/useSyncAll.js:94-100 | in every run, taking out a message tagged with another run, or another run's late start reply, leaves progress, active run, stored run and recovery after all later steps as they were |
| SyncRun.ForeignRecoveryLeavesNoTrace | apps/vulnerability/web/src/features/sync-all/useSyncAll.js:119-138 | so does taking out the late recovery reply of a run that is no longer active, but for the end of that recovery, until another one is tried |
| SyncRun.ActiveSequenceNeverFalls | apps/vulnerability/web/src/features/sync-all/useSyncAll.js:239-284 | over any stretch of any run in which a run id stays active, v3 messages, local endings and recovery replies never lower its sequence |
| SyncRun.AnswerEndsTheRun | apps/vulnerability/web/src/features/sync-all/useSyncAll.js:239-284 | after any run, the answer to the active run's request ends it on the screen: complete at 100 percent with its result and notices, or failed with its error, one sequence on, keeping counters and start |
| SyncRun.StartShows | apps/vulnerability/web/src/features/sync-all/useSyncAll.js:174-206 | a start that takes over shows its own run: failed at once and not stored if an engagement is blocked, else running in the first phase of work, stored, with its request under way |
| SyncRun.RecoverTakesUpExactly | apps/vulnerability/web/src/features/sync-all/useSyncAll.js:102-119 | `recover` takes a run up if and only if one is stored, for this user or nobody, with permission and no other recovery under way; it is then active and shown as it was, or as just starting |
| SyncRun.RecoveryAnswers | apps/vulnerability/web/src/features/sync-all/useSyncAll.js:121-138 | an answered recovery of the active run forgets a run that is gone, merges the one asked for, and changes nothing else |
| SyncRun.ReceivesExactly | apps/vulnerability/web/src/features/sync-all/useSyncAll.js:94-100 | a stream message is merged if and only if a run is active and the message is tagged with it or untagged |
| SyncRun.DismissedStaysGone | apps/vulnerability/web/src/features/sync-all/useSyncAll.js:290-294 | after a dismissal nothing is active, shown or stored until another start, in every run |
| SyncRun.LostPermissionIsNoDismissal | apps/vulnerability/web/src/features/sync-all/useSyncAll.js:141-145 | losing the permission hides the run but keeps it stored, to be taken up again |
| SyncRun.RenderShowsProgress | apps/vulnerability/web/src/features/sync-all/useSyncAll.js:173 | what `start` reads is the progress of the last render |
| SyncRun.StartGuard | apps/vulnerability/web/src/features/sync-all/useSyncAll.js:168-182 | `start` takes over exactly if permitted and no run is active or the rendered progress has ended; otherwise nothing changes |
| SyncRun.SecondStartInOneRender | apps/vulnerability/web/src/features/sync-all/useSyncAll.js:168-206 | two starts within one render of an ended run both go through: the guard reads the rendered progress, not the current one |
| SyncRun.Runner.Start | apps/vulnerability/web/src/features/sync-all/useSyncAll.js:168-211 | the step on refs, state and storage refines `Next`: `start` up to its request |
| SyncRun.Runner.StartReplies | apps/vulnerability/web/src/features/sync-all/useSyncAll.js:229-287 | the step on refs, state and storage refines `Next`: its reply or failure |
| SyncRun.Runner.Recover | apps/vulnerability/web/src/features/sync-all/useSyncAll.js:102-120 | the step on refs, state and storage refines `Next`: `recover` up to its request |
| SyncRun.Runner.RecoverReplies | apps/vulnerability/web/src/features/sync-all/useSyncAll.js:121-138 | the step on refs, state and storage refines `Next`: its reply or failure |
| SyncRun.Runner.ReceiveProgress | apps/vulnerability/web/src/features/sync-all/useSyncAll.js:94-100 | the step on refs, state and storage refines `Next`: a stream message |
| SyncRun.Runner.Dismiss | apps/vulnerability/web/src/features/sync-all/useSyncAll.js:290-294 | the step on refs, state and storage refines `Next`: dismissing |
| SyncRun.Runner.PermissionLost | apps/vulnerability/web/src/features/sync-all/useSyncAll.js:141-145 | the step on refs, state and storage refines `Next`: losing the permission to run |
| SseStream.SplitResumes | apps/vulnerability/web/src/shared/api/api.js:118-121 | splitting a text and then its unterminated rest with what arrives next is splitting the whole, wherever the cut falls, inside a CRLF or a blank line included |
| SseStream.RestIsUnterminated | apps/vulnerability/web/src/shared/api/api.js:119-120 | the kept rest holds no block boundary: no complete block is held back and no part of the tail is dispatched |
| SseStream.ChunkedIsWhole | apps/vulnerability/web/src/shared/api/api.js:114-122 | for every chunking, the events dispatched and the rest kept are those of the whole text parsed at once |
| SseStream.LinesReadBack | apps/vulnerability/web/src/shared/api/api.js:76 | the lines of a block are read back whichever ending, LF or CRLF, each has |
| SseStream.BlockReads | apps/vulnerability/web/src/shared/api/api.js:75-95 | of several names in a block the last counts, and data lines are joined by LF, whatever the line endings |
| SseStream.UnnamedIsMessage | apps/vulnerability/web/src/shared/api/api.js:77 | an event without a name is a `message` |
| SseStream.PrintedFramesComeBack | apps/vulnerability/server/services/dashboard-sync-service.cjs:14-17 | the frames the server writes parse back to the same events, in order |
| SseStream.FramesSurviveChunking | apps/vulnerability/web/src/shared/api/api.js:75-122 | end to end: frames as written by the server, cut anywhere, are dispatched one by one with nothing left over |
| SseStream.Reader.DispatchSyncEvent | apps/vulnerability/web/src/shared/api/api.js:75-95 | the line loop dispatches the event a block stands for: last event name, data lines joined, parsed or raw, nothing without data |
| SseStream.Reader.Push | apps/vulnerability/web/src/shared/api/api.js:118-121 | one turn of the read loop dispatches the completed blocks of buffer plus chunk and keeps the rest |
| SseStream.Reader.ReadAll | apps/vulnerability/web/src/shared/api/api.js:112-122 | over a whole stream the reader dispatches exactly the events of the text parsed at once |
| Compaction.GroupsPartitionFindings | apps/vulnerability/web/src/app/buildFallbackCompactedFindings.js:61-139 | there is one group per distinct group key, holding exactly the findings with that key in order, and its source groups split those exactly by title |
| Compaction.CountsAreConserved | apps/vulnerability/web/src/app/buildFallbackCompactedFindings.js:106-207 | source groups add up to their group in active, mitigated and member counts, groups add up to the number of findings, and active plus mitigated miss exactly the unmitigated findings marked inactive |
| Compaction.Compactor.AddFinding | apps/vulnerability/web/src/app/buildFallbackCompactedFindings.js:45-207 | one turn of the grouping loop |
| Compaction.Compactor.UpdateGroup | apps/vulnerability/web/src/app/buildFallbackCompactedFindings.js:97-207 | the step-by-step update of a group record |
| Compaction.Compactor.AddLegacySource | apps/vulnerability/web/src/app/buildFallbackCompactedFindings.js:113-115 | the id joins the set under the finding's legacy key, which is created if absent |
| Compaction.Compactor.AddSource | apps/vulnerability/web/src/app/buildFallbackCompactedFindings.js:123-145 | the finding joins the source group of its title, which is created if absent |
| Compaction.Compactor.AddFindings | apps/vulnerability/web/src/app/buildFallbackCompactedFindings.js:43-220 | the loop over all findings computes the grouping the theorems are about |
| CompactionOrder.TalliesCommute | apps/vulnerability/web/src/app/buildFallbackCompactedFindings.js:102-207 | tallying two findings in either order comes to the same, for any groups so far |
| CompactionOrder.OrderDoesNotMatter | apps/vulnerability/web/src/app/buildFallbackCompactedFindings.js:45-220 | permuting the findings leaves the group keys and, per key, count, active and mitigated counts, ids, severity rank, title, CVE, CWE and mitigation sets, legacy sources and per-title tallies as they were |
| TicketContents.TicketsShowTheirFindings | apps/vulnerability/web/src/app/buildFallbackCompactedFindings.js:95-153 | each group collects exactly the titles, CVEs, CWEs, mitigations, product and engagement ids and legacy ids its findings name, and shows the first of their highest severities and upgrade targets and the last of their highest Redmine syncs and latest dates; each source group collects and rates so over the findings of its title |
| TicketContents.TicketsChooseByName | apps/vulnerability/web/src/shared/lib/dashboardUtils.js:18-126 | by name: a ticket, and each source group, is Critical if a finding is, else High, else Medium, else Low, else what its first finding says; and a ticket shows the sync created, else already open, else closed, else skipped or not found, else failed to check, else any, the latest of those of one standing and the last if several |
| CompactionKeys.ScopeIdsAreNamed | apps/vulnerability/web/src/app/buildFallbackCompactedFindings.js:234-239 | a ticket is filed under exactly the product and engagement ids its group names, or the pull filters where it names none |
| CompactionKeys.CompactedKeyForgetsOrder | apps/vulnerability/web/src/domain/findings/compactionUtils.js:264-276 | permuting the findings leaves each group's compacted key as it was when no two products and no two engagements of the group tie |
| CompactionKeys.LegacyKeysForgetOrder | apps/vulnerability/web/src/domain/findings/compactionUtils.js:278-292 | permuting the findings leaves each group's set of legacy keys as it was when no two different ids of the group tie |
| LegacyIds.PrintedIdsForgetOrderExactly | apps/vulnerability/web/src/domain/findings/compactionUtils.js:278-292 | the finding ids printed into the legacy key of a group, under its own key or one of an earlier release, are the same for every order of the findings if and only if no two that print differently tie: `01` and `1` print alike |
| LegacyIds.LegacyKeyShowsPrintedIds | apps/vulnerability/web/src/domain/findings/compactionUtils.js:286 | those are the ids the hashed text shows |
| LegacyIds.RenumberTellsNumber | apps/vulnerability/web/src/domain/findings/findingUtils.js:493-496 | a digit string is printed as its number, whatever zeros lead it, and 0 not at all |
| LegacyIds.OtherIdsStay | apps/vulnerability/web/src/domain/findings/findingUtils.js:493-496 | any other id is printed as it is |
| CompactionKeys.SortedIdsForgetOrderExactly | apps/vulnerability/web/src/domain/findings/findingUtils.js:493-496 | the sorted ids a group collects are the same for every order of the findings if and only if no two different ones tie |
| CompactionKeys.ScopeIdsForgetOrderExactly | apps/vulnerability/web/src/app/buildFallbackCompactedFindings.js:230-242 | so are the product ids a ticket is filed under, pull filter included, and, independently, its engagement ids |
| CompactionKeys.KeySourceForgetsOrderExactly | apps/vulnerability/web/src/domain/findings/compactionUtils.js:264-276 | the text hashed into the compacted key is the same for every order of the findings if and only if neither products nor engagements tie, when scopes hold no separator |
| CompactionKeys.HighestTargetsTie | apps/vulnerability/web/src/app/buildFallbackCompactedFindings.js:151-153 | the upgrade targets kept under two orders of the findings are of equal version |
| CompactionKeys.KeySourceIsInjective | apps/vulnerability/web/src/domain/findings/compactionUtils.js:264-276 | the text hashed into a compacted key determines the group key, whatever it holds, and the sorted product and engagement ids, if ids hold no comma or bar |
| SyncKeys.CompactedKeysAgreeExactly | apps/vulnerability/web/src/domain/findings/compactionUtils.js:264-276 | two compacted keys are equal if and only if the words hashed from the texts of their groups and scopes agree in 53 bits |
| SyncKeys.KeyReadsBack | apps/vulnerability/web/src/domain/findings/compactionUtils.js:261-275 | behind its prefix a key reads in base 36 as the 53-bit number of its text's words |
| SyncKeys.LegacyKeysAre | apps/vulnerability/web/src/app/buildFallbackCompactedFindings.js:246-262 | the legacy keys of a ticket are exactly those of its own ids and of the ids under each earlier fingerprint that differ from its compacted key |
| SyncKeys.LegacySourceIsInjective | apps/vulnerability/web/src/domain/findings/compactionUtils.js:278-292 | the text hashed into a legacy key determines the fingerprint, whatever it holds, and the printed finding, product and engagement ids, if ids hold no comma or bar |
| CompactionKeys.SourcesAreSortedByVersion | apps/vulnerability/web/src/domain/findings/compactionUtils.js:359-368 | a ticket lists each source group of its group exactly once: those whose titles name a version first, newest first, and the others by collation |
| Families.CollectVulnerabilityIds | apps/vulnerability/web/src/domain/findings/vulnerabilityUtils.js:81-101 | the pushing loops over three lists and a single field compute the ids the lemmas are about |
| Families.IdOfInnermost | apps/vulnerability/web/src/domain/findings/vulnerabilityUtils.js:81-101 | an entry stands for its innermost text, cleaned, unless that reads `none` or `n/a` |
| Families.VulnerabilityIdsAreListed | apps/vulnerability/web/src/domain/findings/vulnerabilityUtils.js:81-101 | the ids of a finding are exactly the cleaned texts its lists name at any depth of wrapping, none of them empty, `none` or `n/a`, each once, in collation order |
| Families.FamilyIsResolved | apps/vulnerability/web/src/domain/findings/vulnerabilityUtils.js:137-183 | an upgrade target settles the family; without one and without vulnerability ids a known family does; else the ids, and with none the texts of the finding |
| Families.ListingDoesNotMatterExactly | apps/vulnerability/web/src/domain/findings/vulnerabilityUtils.js:81-101 | which list names an id, in what order, how often or how deeply wrapped makes no difference to the ids, for every finding naming the same, if and only if no two of them tie |
| Families.FamilyKeysAreExact | apps/vulnerability/web/src/domain/findings/vulnerabilityUtils.js:137-183 | two findings have equal family keys if and only if they are of one family: the four kinds never meet, and each kind tells its software, known family, id list or four texts, unless an id and a comma begin the id at the same place, or a title, mitigation or description and a bar begin the other finding's |
| Families.PlainFamiliesAreExact | apps/vulnerability/web/src/domain/findings/vulnerabilityUtils.js:137-183 | so it is always when ids hold no comma, and titles, mitigations and descriptions no bar |
| Families.TextsMeetExactly | apps/vulnerability/web/src/domain/findings/vulnerabilityUtils.js:15-21 | for two different clean titles, mitigations or descriptions, strict families can share a key although they differ there, for some clean texts behind, if and only if one and a bar begin the other with no blank behind |
| Families.GroupsStayInTheirRoute | apps/vulnerability/web/src/domain/findings/compactionUtils.js:413-443 | for any families and details: unless one route text ends in a route mark and the other, or one product and a bar begin the other, group keys are equal if and only if product, engagement and content are |
| Families.PlainRoutesNeverCross | apps/vulnerability/web/src/domain/findings/compactionUtils.js:418-440 | routes without bars are never in those cases |
| Families.RoutesMeetExactly | apps/vulnerability/web/src/domain/findings/compactionUtils.js:435-441 | two clean routes of one family that is not strict can end up under one group key, for some trimmed descriptions and impacts in the detail key, if and only if they are equal as texts or one ends in a route mark and the other with no blank before |
| Families.ProductsCrossExactly | apps/vulnerability/web/src/domain/findings/compactionUtils.js:435-441 | under equal contents two different clean products can share a group key, for some clean engagements, if and only if one product and a bar begin the other with no blank behind |
| Families.BarsCrossRoutes | apps/vulnerability/web/src/domain/findings/compactionUtils.js:435-441 | for instance product `a|b` with engagement `c` and product `a` with engagement `b|c` |
| Families.TicketTargetIsHighest | apps/vulnerability/web/src/domain/findings/vulnerabilityUtils.js:194-212 | a ticket shows a target of maximal version among all its texts name, and none only if they name none |
| StableHash.StepInjectiveInState | apps/vulnerability/web/src/domain/findings/compactionUtils.js:252-256 | for a given character a step of the loop is injective in the state, word by word |
| StableHash.StepInjectiveInUnit | apps/vulnerability/web/src/domain/findings/compactionUtils.js:252-256 | for a given state a step is injective in the character, in either word |
| StableHash.SingleEditIsSeen | apps/vulnerability/web/src/domain/findings/compactionUtils.js:252-256 | two texts that differ in one code unit, with any common text around it, leave the loop with both words different |
| StableHash.UnitsAreInjective | apps/vulnerability/web/src/domain/findings/compactionUtils.js:252-253 | different texts have different code units, surrogate pairs included |
| StableHash.EditedTextsDiffer | apps/vulnerability/web/src/domain/findings/compactionUtils.js:247-259 | replacing one character of the basic plane leaves both words before the finaliser different, and so a different pair behind it |
| StableHash.KnownWords | apps/vulnerability/web/src/domain/findings/compactionUtils.js:249-259 | the words of the empty text and of `a` are the known ones |
| StableHash.FinaliseIsBijective | apps/vulnerability/web/src/domain/findings/compactionUtils.js:258-259 | the two finalising lines are a bijection on pairs of 32-bit words: an inverse is given and inverts on both sides |
| StableHash.CombineIsExact | apps/vulnerability/web/src/domain/findings/compactionUtils.js:261 | the combined number is at most 2^53 - 1 and determines the first word and the low 21 bits of the second |
| StableHash.HashesAgreeExactly | apps/vulnerability/web/src/domain/findings/compactionUtils.js:247-262 | two texts hash to the same string exactly if their finalised words agree in those 53 bits |
| StableHash.Compute | apps/vulnerability/web/src/domain/findings/compactionUtils.js:247-262 | the imperative loop computes the hash the lemmas are about |
| Versions.TokensCompareAsText | apps/vulnerability/web/src/domain/findings/findingUtils.js:344-351 | comparing two numbers as numbers and as text has the same sign, so mixed tokens are under one order |
| Versions.PaddingIsSilent | apps/vulnerability/web/src/domain/findings/findingUtils.js:342-347 | looking further than both token lists reach changes nothing: the loop compares zero-padded lists |
| Versions.VersionsAreOrdered | apps/vulnerability/web/src/domain/findings/findingUtils.js:339-358 | `compareVersions` is a total preorder on all texts: reflexive, antisymmetric in sign, transitive |
| Versions.TrailingZerosTie | apps/vulnerability/web/src/domain/findings/findingUtils.js:342-357 | token lists that differ in trailing zeros only tie |
| Versions.FirstDifferenceDecides | apps/vulnerability/web/src/domain/findings/findingUtils.js:344-355 | two versions compare as their first differing parts do, read as if padded with zeros for ever |
| Versions.DottedVersionsCompareAsNumbers | apps/vulnerability/web/src/domain/findings/findingUtils.js:330-358 | versions of plain numbers compare number by number, whatever their lengths: 1.9 is below 1.10 |
| Versions.Compare | apps/vulnerability/web/src/domain/findings/findingUtils.js:339-358 | the early-exit loop computes that order |
| Titles.DisplayTitleIsChosen | apps/vulnerability/web/src/domain/findings/compactionUtils.js:306-327 | the display title is of maximal version if any title names one, else longest, and the first such in sorted order |
| Titles.LengthCountsUnits | apps/vulnerability/web/src/domain/findings/compactionUtils.js:320 | length is counted in code units |
| Titles.FallbackIsShown | apps/vulnerability/web/src/domain/findings/compactionUtils.js:311 | with no title that holds text the fallback is shown, and a placeholder without one |
| Titles.SourceGroupOrderIsConsistent | apps/vulnerability/web/src/domain/findings/compactionUtils.js:359-368 | the source-group comparator is a total preorder, so the sort it drives is well defined |
| Titles.ComparatorPutsNewestFirst | apps/vulnerability/web/src/domain/findings/compactionUtils.js:359-368 | it puts titles that name a version first, newest first, and the others by collation |
| TenableCutter.StartsAreTheHeaders | apps/vulnerability/web/src/domain/findings/compactionUtils.js:97-98 | the starts collected are all line-start headers of the text, in order and no others |
| TenableCutter.HeaderAtExactly | apps/vulnerability/web/src/domain/findings/compactionUtils.js:73 | a header begins exactly where a line does and blanks, perhaps a quote mark, the words, blanks and a colon follow, read without backtracking |
| TenableCutter.SeparatorIsEmptyLines | apps/vulnerability/web/src/domain/findings/compactionUtils.js:90-93 | the separator swallowed is a run of empty lines, bare or quoted, and all of it |
| TenableCutter.SeparatorStopsBeforeHeader | apps/vulnerability/web/src/domain/findings/compactionUtils.js:90-93 | the separator swallowed after a block never runs into the next header, whose own quote marks and blanks it could match |
| TenableCutter.BlocksAreDetected | apps/vulnerability/web/src/domain/findings/compactionUtils.js:105-118 | the blocks detected are exactly those a header begins and a disclaimer ends before the next header, with the other headers of a block in between |
| TenableCutter.FirstsAndRepeats | apps/vulnerability/web/src/domain/findings/compactionUtils.js:118-128 | blocks detected are distinct keys plus repeats |
| TenableCutter.FirstOfItsKeyStays | apps/vulnerability/web/src/domain/findings/compactionUtils.js:119-123 | a detected block is a first one when no earlier block has its key, and a repeat otherwise |
| TenableCutter.FirstBlockSurvives | apps/vulnerability/web/src/domain/findings/compactionUtils.js:105-130 | the first block of each key stands whole in the output: no removed range touches a character of it |
| TenableCutter.Analyze | apps/vulnerability/web/src/domain/findings/compactionUtils.js:95-137 | the removed ranges are in order and pairwise disjoint, the output is exactly the characters outside them, and the three counts are those of detected blocks, repeats and distinct keys |
| SyncHistory.NormalizedNames | apps/vulnerability/web/src/features/sync-history/syncHistoryModel.js:140-155 | a row is shown under the names of its product and engagement, or their ids where there is no name, and is complete if and only if it has both |
| SyncHistory.ScopeIsEngagement | apps/vulnerability/web/src/features/sync-history/syncHistoryModel.js:78-90 | for normalised rows the scope deltas are computed in is the engagement the run is shown under |
| SyncHistory.KeysTellApart | apps/vulnerability/web/src/features/sync-history/syncHistoryModel.js:78-85 | engagement keys of two rows are equal if and only if company and engagement are, unless one company key and the separator begin the other |
| SyncHistory.CompaniesClashExactly | apps/vulnerability/web/src/features/sync-history/syncHistoryModel.js:78-90 | two companies can share a delta scope, for some complete rows, if and only if one company key and the separator begin the other with no blank behind |
| SyncHistory.SeparatorsCanConfuse | apps/vulnerability/web/src/features/sync-history/syncHistoryModel.js:87-90 | for instance company `a|b` with engagement `c` and company `a` with engagement `b|c` |
| SyncHistory.RunsAreOldestFirst | apps/vulnerability/web/src/features/sync-history/syncHistoryModel.js:122-123 | the runs of a scope come by time and, at equal times, by id |
| SyncHistory.DeltasAccountForPulledCounts | apps/vulnerability/web/src/features/sync-history/syncHistoryModel.js:109-138 | per scope and severity the deltas of all runs add up to the last pulled count plus all falls on the way: at least every pulled count, and the last one if and only if counts never fell |
| SyncHistory.EveryRunHasItsRise | apps/vulnerability/web/src/features/sync-history/syncHistoryModel.js:120-135 | with unique ids, every run of every scope is recorded with its rise over the run before it there and their total |
| SyncHistory.SeveritiesAre | apps/vulnerability/web/src/features/sync-history/syncHistoryModel.js:92-107 | the figure of a severity is that severity's own |
| SyncHistory.RunShowsItsRise | apps/vulnerability/web/src/features/sync-history/syncHistoryModel.js:120-135 | that is, severity by severity what its pulled count exceeds the last one by, or nothing, and their sum |
| SyncHistory.DeltasAreOfCompleteRows | apps/vulnerability/web/src/features/sync-history/syncHistoryModel.js:112-117 | exactly the complete rows have a delta |
| SyncHistory.AddRuns | apps/vulnerability/web/src/features/sync-history/syncHistoryModel.js:121-135 | the loop over a scope's ordered runs writes each run's rise over its predecessor |
| SyncHistory.BuildFindingDeltaMap | apps/vulnerability/web/src/features/sync-history/syncHistoryModel.js:109-138 | grouping by scope and then walking each scope in time order computes the map the lemmas are about |
| SyncGroups.AddRowToAggregate | apps/vulnerability/web/src/features/sync-history/syncHistoryModel.js:180-199 | the field-by-field update of an aggregate |
| SyncGroups.SummedCounts | apps/vulnerability/web/src/features/sync-history/syncHistoryModel.js:180-199 | an aggregate's runs, listed rows, new findings, outcomes and severity deltas are the sums over its rows |
| SyncGroups.SummedKnowsLatest | apps/vulnerability/web/src/features/sync-history/syncHistoryModel.js:195-198 | its latest row is the first of the newest ones |
| SyncGroups.GroupingConserves | apps/vulnerability/web/src/features/sync-history/syncHistoryModel.js:206-233 | grouping any rows by any key loses and doubles nothing, in any figure |
| SyncGroups.EngagementsAddUp | apps/vulnerability/web/src/features/sync-history/syncHistoryModel.js:206-249 | each figure of a company is the sum over its rows and the sum over its engagements |
| SyncGroups.CompaniesAddUp | apps/vulnerability/web/src/features/sync-history/syncHistoryModel.js:206-249 | all companies together have exactly the figures of the rows that name a company |
| SyncGroups.OutcomesOfGroup | apps/vulnerability/web/src/features/sync-history/syncHistoryModel.js:187-193 | success, partial and failed runs of a company add up to its runs; any other status counts as success |
| SyncGroups.LatestOfGroup | apps/vulnerability/web/src/features/sync-history/syncHistoryModel.js:195-198 | a company shows the first of the newest of exactly its rows |
| SyncGroups.NameOfGroup | apps/vulnerability/web/src/features/sync-history/syncHistoryModel.js:210-218 | and has the name its first row has |
| SyncGroups.EngagementTells | apps/vulnerability/web/src/features/sync-history/syncHistoryModel.js:221-243 | an engagement has the names of its first row, lists exactly its rows newest first, counts exactly those, and knows the newest |
| SyncGroups.GroupsAreSorted | apps/vulnerability/web/src/features/sync-history/syncHistoryModel.js:201-249 | companies, and engagements within them, come latest run first and then by title |
| SyncGroups.BuildCompanySyncGroups | apps/vulnerability/web/src/features/sync-history/syncHistoryModel.js:206-249 | the loop over rows and the finishing maps and sorts give the result the lemmas are about |
| Csv.CsvReadsBack | apps/vulnerability/web/src/features/log-monitor/logMonitorUtils.js:168-177 | reading the download by section 2 of RFC 4180 gives back exactly its headers and cells, whatever they hold, if and only if there is a column and not (one column with an empty last row) |
| Csv.EscapesExactly | apps/vulnerability/web/src/features/log-monitor/logMonitorUtils.js:168-171 | a cell is printed as it is if and only if it holds no quote, comma, CR or LF, and else between quotes |
| Csv.CellsAreOfRow | apps/vulnerability/web/src/features/log-monitor/logMonitorUtils.js:174-177 | each header has its cell, in order, and a missing value is empty text |
| Csv.CellsAreOfRows | apps/vulnerability/web/src/features/log-monitor/logMonitorUtils.js:174-177 | and each row its record |
| Csv.CsvIsInjective | apps/vulnerability/web/src/features/log-monitor/logMonitorUtils.js:174-177 | under fixed headers, however many, two downloads are equal if and only if all cells are |
| Csv.OneColumnLosesARow | apps/vulnerability/web/src/features/log-monitor/logMonitorUtils.js:174-177 | with one column the reading takes the line break of an empty last row for the ending one and gives no row |
| FormUrl.TextDecodes | apps/vulnerability/web/src/app/productFindingsRoute.js:92-104 | UTF-8 decoding undoes encoding for every text |
| FormUrl.QueryParses | apps/vulnerability/web/src/app/productFindingsRoute.js:92-104 | parsing a serialised query gives its pairs back, whatever names and values hold |
| FormUrl.TextReadsBack | apps/vulnerability/web/src/app/productFindingsRoute.js:92-104 | the serialised text reads back, holds no `?` or `#`, and is empty only for the empty query |
| FindingRoutes.QueryReadsBack | apps/vulnerability/web/src/app/routes.js:154-157 | splitting a built hash at its question mark gives the route part and a text that parses to the query |
| FindingRoutes.FindingsHashReadsBack | apps/vulnerability/web/src/app/productFindingsRoute.js:77-105 | resolving the built findings hash and reading its filters gives the normalised filters, whatever they hold; only the issue id is dropped |
| FindingRoutes.HashResolves | apps/vulnerability/web/src/app/routes.js:75-165 | a known hash with any query resolves to its own route and that query, and any other hash to the dashboard; only a data-management link naming an archive goes to the archive dashboard |
| FindingRoutes.GapsBecomeUnderscore | apps/vulnerability/web/src/app/productFindingsRoute.js:29-32 | whatever stands between two words of a status, blanks or hyphens, becomes one underscore |
| FindingRoutes.NormalFiltersStay | apps/vulnerability/web/src/app/productFindingsRoute.js:27-41 | normalising leaves filters that are already normal as they are, each in its own field: trimmed texts and the offered severities and statuses |
| FindingRoutes.ScopeQueryIsInjective | apps/vulnerability/web/src/app/productFindingsRoute.js:58-75 | two scope queries are equal if and only if the normalised year, product, engagement and severity are |
| FindingRoutes.OlderLinksRead | apps/vulnerability/web/src/app/productFindingsRoute.js:43-56 | links that spell status, search and finding as earlier releases did are read as before |
| FindingRoutes.NewerSpellingsCount | apps/vulnerability/web/src/app/productFindingsRoute.js:43-56 | and where a link has both spellings, the newer one counts if it says anything |
| FindingRoutes.YearHashKeepsOtherFilters | apps/vulnerability/web/src/app/routes.js:111-117 | changing the year on a findings page keeps the page and all other filters of any query and clears product and engagement |
| FindingRoutes.ArchiveLinksResolve | apps/vulnerability/web/src/app/routes.js:75-165 | a data-management link to an archive resolves to the archive dashboard showing that archive and year; other sections resolve to themselves |
| FindingRoutes.BuildProductFindingsHash | apps/vulnerability/web/src/app/productFindingsRoute.js:77-105 | setting parameters one by one prints exactly the fields that are not at their defaults |
| FindingRoutes.BuildFindingScopeQuery | apps/vulnerability/web/src/app/productFindingsRoute.js:58-75 | the same for the scope query |
| FindingRoutes.BuildFindingsYearHash | apps/vulnerability/web/src/app/routes.js:111-117 | setting and deleting parameters one by one gives the query the year lemma is about |
| FindingRoutes.BuildDataManagementHash | apps/vulnerability/web/src/app/routes.js:75-85 | the same for data-management links |

## Left out

- CompactionKeys.LegacyKeysForgetOrder: one way only, because keys are hashes and different texts may hash alike; LegacyIds.PrintedIdsForgetOrderExactly and ScopeIdsForgetOrderExactly give the exact conditions for the ids behind it, and KeySourceForgetsOrderExactly for the text hashed into the compacted key.
- LegacyIds.PrintedIdsForgetOrderExactly: digit strings are read as exact numbers; the code rounds those beyond 2^53.
- CompactionKeys.KeySourceForgetsOrderExactly: for scopes without commas and bars, since with them different id lists can print alike; ScopeIdsForgetOrderExactly is about the lists and asks nothing of them.
- Families.FamilyKeysAreExact: for id lists and texts that are apart; TextsMeetExactly says when titles, mitigations and descriptions that are not can meet.
- Families.RoutesMeetExactly: not for strict families, whose key is made of the same description and impact as the detail.
- Families.TextsMeetExactly: over all clean texts; which of them the regular expressions can yield is not modelled, nor is it for the routes and details of RoutesMeetExactly and ProductsCrossExactly.
- DashboardSession.Session.SelectYear: the state change, the effects of its commit and the microtask they queue are one step; a reply handled between commit and effects is not modelled.
- LiveRefresh.AcceptedScheduleIsOwed: assumes that `onError` does not throw; ThrowingHandlerStrands says what happens if it does.
- SyncProgress.PercentFollowsPosition: over exact reals, not IEEE doubles; a position within one rounding error of a half could round the other way.
- SyncProgress.FoldYieldsHighest: asks snapshots of one run to be consistent (one message per sequence, counters and endings not withdrawn later), since merging keeps counters that a later message leaves out.
- DashboardSession.PublishedNeverGoesBack: revisions are numbers there; Revisions ties decimal texts to numbers and shows that malformed texts have no order.
- DashboardSession.Session.SignOut: the resets of the signed-out handlers on configuration, health and notices are not modelled.
- FindingsLoader.DashboardClears: the findings go down at once, where the code queues a microtask for that.
- LiveDashboard.AnnouncedRevisionIsPursued: what else a started refresh fetches (integration health, raw findings) is not modelled there.
- SyncHistory.EveryRunHasItsRise: ids are taken to be unique, as the server assigns them; with repeated ids the later write wins.
- SyncGroups.BuildCompanySyncGroups: aggregates are values held in ordered maps and replaced on update, not records shared by reference.
- Compaction.Compactor.UpdateGroup: group records are values replaced in the map, not records mutated through a shared reference; endpoint details, description and impact sources, family keys, route names and per-finding states are left out, as they are filled by the same add-to-set steps.
- TenableCutter.Analyze: what makes a window a block (disclaimer, fixed-version and CVE headers) and its key are functions of the text.
- FindingRoutes.FindingsHashReadsBack: text is made of Unicode scalar values; `URLSearchParams` replaces lone surrogates before encoding them.
- React rendering, hook scheduling, focus, canvas and styles: user interface; effects and microtasks appear as steps.
- Loading and error flags of the dashboard, toasts and the reconnect timer: display only, or single-branch.
- Fetch, browser storage, timers and decoding of bytes in the stream: steps of the environment, or flags.
- JSON parsing, `BigInt`, `localeCompare`, `toLowerCase`, title-version extraction and the regular-expression normalisers: parameters, or fields of a finding.
- A handler that throws inside `dispatchSyncEvent` would be called again with the raw text; handlers are taken not to throw.
- Families.CollectVulnerabilityIds: software names, known families and texts are given as their regular expressions leave them; weakness ids and route fields, first-present choices over one finding, are taken as given.
- Time stamps and counts of history rows: taken as parsed; number parsing beyond 2^53 is not modelled.
- Permissions and roles: the access-control package is not part of this model.
- The server, its Redmine and archive back ends, mock data, locale dates, Markdown output: not part of this model.
- Terminal status is not final in the merge: a later v3 message of higher sequence is accepted, as the code does.
