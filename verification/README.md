# Verification of the portal's stateful core

A model in Dafny of the parts of the portal where crashes, concurrency or bytes that
arrive in pieces carry a property of every run, with the properties proved.  Source
files are cited by path and line.  `dafny verify dfyconfig.toml` checks the project.

| component | modules |
|---|---|
| restore of the portal's data: journaled switch, rollback, recovery | `RestoreTransaction` (steps), `RestoreHost` (the process), `RestoreSafety`, `RestoreData`, `RestoreExactness`, `RestoreProgress` |
| host services installed after a restore; the manager paused for a snapshot | `HostInstall`, `ManagerPause` |
| JSON request scanner and instruction patcher | `JsonGrammar`, `JsonLexer`, `JsonLayout`, `IdentityScan`, `IdentityTree`, `IdentityWalk`, `IdentityReader`, `IdentityRunes`, `IdentityDecoding`, `IdentityText`, `IdentityTextReader`, `IdentityCuts`, `IdentitySentence`, `IdentityPlaces`, `IdentityMeaning`, `IdentityPatches`, `IdentityEdit`, `IdentityRewrite`, `IdentityOutcome`, `IdentityGateway` |
| usage statistics kept by increments | `ActualModels`, `ActualModelReport`, `ActualModelRefresh`, `ActualModelChain`, `ActualModelStore` |
| WebSocket frame filter | `WebsocketFilter`, `WebsocketFrames`, `WebsocketStream`, `WebsocketWriter` |
| resource controller: pressure, admission, audit events | `ResourceMonitor`, `AdmissionControl`, `AdmissionDecisions`, `AdmissionController` |
| cache of upstream reads | `UpstreamCache`, `UpstreamReads`, `UpstreamLives` |
| model names, aliases and presets; wildcard rules | `OAuthNames`, `OAuthRouting`, `OAuthPortal`, `OAuthPresets`, `OAuthTargets`, `OAuthRuns`, `WildcardMatch` |
| sealed capture and backup files | `SealedChunks`, `CaptureFiles`, `BackupFiles` |
| byte accounting of captured flows | `SequenceIntervals` |
| shared | `Wrappers`, `Runs`, `Totals` |

Code that changes fields step by step is a class whose methods are proved against
functions of the old state; the properties are lemmas about those functions.  Where such
a function follows the code, a second statement says what it means without it: on the
archive, the decoded text, the reported rows, the leases, the history of the run.

A process that can die is a function of a script: each rename, copy, journal write,
Stop and Start takes one entry saying how it went, and where the script ends the
process is dead.  A statement about all scripts is one about every failure and every
crash.  Concurrent code is a state machine whose steps are what happens between two
points where other goroutines can run.

## Model

| member | source | states |
|---|---|---|
| `RestoreSafety.EveryStartSeesOneGeneration` | internal/backup/portal_restore.go:181-605 | a job from a clean disk, then any number of recoveries, each with any failures and interrupted anywhere: every Start finds all targets old or all targets new, and when no transaction is left the data is all old or all new; provided the job did not turn to its rollback with the journal behind its memory |
| `RestoreSafety.EveryRunIsCoherent` | internal/backup/portal_restore.go:181-605 | the same over any sequence of jobs, each queued once the recoveries of the one before are done |
| `RestoreSafety.SuccessEndsAllNew` | internal/backup/portal_restore.go:312-407 | a job that reports success leaves every target in the new generation, sidecars included; which data that is, the next row says |
| `RestoreData.SuccessUnpacksTheArchive` | internal/backup/portal_restore.go:268-407 | a job that reports success leaves each target with the data of its own entry of the archive, and the services running on that |
| `RestoreData.NewStartsFindTheArchive` | internal/backup/portal_restore.go:268-407 | every Start of a job, forward or in its rollback, finds the old data or, target by target, the entries of the archive, before any service wrote to them |
| `RestoreData.CompletedRecoveryRuns` | internal/backup/portal_restore.go:534-605 | a recovery that completes has started the services: on the new data if the job had committed, on the old data otherwise |
| `RestoreData.UndoneJobRuns` | internal/backup/portal_restore.go:447-532 | so has a rollback that completes within the job, on exactly the data held at Stop if files may have been moved |
| `RestoreSafety.RecoverEffect` | internal/backup/portal_restore.go:534-605 | a recovery keeps the journal invariant wherever it is cut off; one that completes leaves no transaction, new data if the journal said committed and old data otherwise, and if files may have been moved it started the services on exactly the data held at Stop |
| `RestoreSafety.RecoveryConverges` | internal/backup/portal_restore.go:447-605 | from any journal that says files may have moved, after any number of interrupted recoveries: the first Start that ever happens finds exactly the data held when the job stopped the services, with no sidecar beside it, and when no transaction is left such a Start has happened and the old data runs |
| `RestoreSafety.TicksKeep` | internal/backup/portal_restore.go:534-605 | any number of recoveries with any scripts keep the invariant that ties each persisted phase to what is on disk, and only add to the history |
| `RestoreSafety.NextJobIsInitial` | internal/backup/portal_restore.go:181-260 | what a finished transaction leaves is again a state from which a job may begin |
| `RestoreExactness.SafeExactlyWhenJournalIsNotBehind` | internal/backup/portal_restore.go:324-407 | for every job that reaches its rollback (first target an existing database): all Starts are coherent for all ways to go on, exactly when the journal is not behind |
| `RestoreExactness.BehindIsUnsafe` | internal/backup/portal_restore.go:447-532 | with the journal behind, there are an interruption of the rollback and a recovery that starts the services on a mixture |
| `RestoreExactness.InterruptedRollback` | internal/backup/portal_restore.go:447-532 | the interruption: the rollback dies right after it took the live database of the first target away, and the journal is as it was |
| `RestoreExactness.SwitchingIsNotRecorded` | internal/backup/portal_restore.go:345-351 | a script of a one-database job whose write of `switching` fails reaches the rollback with the journal behind |
| `RestoreExactness.CommittedIsNotConfirmed` | internal/backup/portal_restore.go:384-407 | so does a job whose write of `committed` reports an error after the rename |
| `RestoreProgress.OnlyFailuresStopAJob` | internal/backup/portal_restore.go:181-407 | when no step fails, a job either dies where its script ends or leaves the new data, and with 11 steps per target and 15 more it always finishes |
| `RestoreProgress.OnlyFailuresStopARecovery` | internal/backup/portal_restore.go:534-605 | when no step fails, a recovery gives up exactly when a staged directory is gone, which cannot be after a switch, and otherwise finishes within 13 steps per target and 10 more |
| `RestoreHost.Host.ReplacePortalDatabase` | internal/backup/portal_restore.go:181-407 | the imperative job changes disk, script and status as the function on worlds says |
| `RestoreHost.Host.RollbackDatabaseTransaction` | internal/backup/portal_restore.go:447-532 | the imperative rollback, loops over targets and sidecars included, is the function `Rollback` |
| `RestoreHost.Host.RecoverDatabaseTransaction` | internal/backup/portal_restore.go:534-605 | the imperative recovery is the function `Recover` |
| `RestoreHost.Host.SwitchTargets` | internal/backup/portal_restore.go:350-372 | the loop that puts the candidates in place does to the disk what the recursion over the targets does |
| `HostInstall.InstallsOnlyCommitted` | internal/backup/restore_host_tasks.go:27-149 | in every run with crashes anywhere and without a fatal step, host services are installed only for jobs whose data is committed; fatal is to queue a job without a host part behind a plan that no commit stands behind or that is about to be made, and a commit that a plan waits for and that reports an error after it was written |
| `HostInstall.StepIsSafeExactly` | internal/backup/restore_queue.go:115-241 | from every reachable state, every way to go on after a step without a further fatal one is safe exactly if the step is not fatal |
| `HostInstall.RunIsSafeExactly` | internal/backup/portal_restore.go:384-397 | over every run: every point of it is safe however things go on from there, exactly if no step of the run is fatal |
| `HostInstall.QueueingWhenIdleIsFine` | internal/httpserver/backups.go:137-143 | the idle check of the web process rules out the first kind of fatal step |
| `HostInstall.BothHappen` | internal/backup/restore_host_tasks.go:27-47 | runs from the start after which either kind of fatal step is possible |
| `HostInstall.StalePlanInstalls` | internal/backup/restore_host_tasks.go:49-102 | a job with no host part, queued beside a waiting plan of an uncommitted job, ends with that plan installed |
| `HostInstall.UndisturbedJobInstalls` | internal/backup/restore_queue.go:115-241 | from an idle host on, a job with a host part and nothing in its way ends committed and installed, and the host idle |
| `HostInstall.CommittedPlanIsInstalled` | internal/backup/restore_host_tasks.go:49-149 | a plan whose job is committed is not lost by a crash: one recovery and one more tick install it |
| `HostInstall.ReadyPlanStays` | internal/backup/restore_host_tasks.go:76-149 | a ready plan stays until it is installed, whatever else happens but the failure of another job with a host part |
| `ManagerPause.PauseIsRecorded` | internal/backup/manager_snapshot.go:162-260 | in every run in which no backup makes its record while a recovery is past its lease: a stopped manager has a durable record, the record goes only when the manager runs and was seen healthy since it was stopped, and no recovery started it while a backup held the lease |
| `ManagerPause.SafeExactlyWhenNoRecoveryIsLate` | internal/backup/manager_snapshot.go:162-260 | from every reachable state, every way to go on after a step is safe exactly if the step is not a record made while a recovery is under way |
| `ManagerPause.RunIsSafeExactly` | internal/backup/manager_snapshot.go:162-260 | over every run: every point of it is safe however things go on from there, exactly if the run has no such step |
| `ManagerPause.LateRecoveryHappens` | internal/backup/manager_snapshot.go:223-260 | a run from the start without such a step, after which one is possible |
| `ManagerPause.StoppedManagerIsRecoverable` | internal/backup/manager_snapshot.go:223-260 | a manager left stopped is started by one undisturbed recovery, which leaves no record and no lease |
| `JsonLexer.StringEndReads` | internal/gateway/identity_json_stream.go:78-121 | where the string loop stops, the bytes before are a string of section 7 of RFC 8259 |
| `JsonLexer.StringEndComplete` | internal/gateway/identity_json_stream.go:78-121 | it stops at the closing quote of every such string |
| `JsonLexer.NumberEndReads` | internal/gateway/identity_json_stream.go:246-289 | what the number reader takes is a number of section 6 of RFC 8259 |
| `JsonLexer.NumberEndComplete` | internal/gateway/identity_json_stream.go:246-289 | it takes the whole of every such number |
| `JsonLayout.PrintStands` | internal/gateway/identity_json_stream.go:156-327 | a printed value stands in its text: every piece of the tree is at the place its lengths say |
| `IdentityTree.ScanPrinted` | internal/gateway/identity_json_stream.go:156-327 | on a printed value the scanner succeeds exactly when no tracked field is repeated and the nesting fits, and then finds what the tree says |
| `IdentityTree.ScanReads` | internal/gateway/identity_json_stream.go:156-327 | whatever the scanner accepts is the text of some value, ending where it says, of a depth within the limit |
| `IdentityWalk.ScanAcceptsExactly` | internal/gateway/identity_json_stream.go:473-563 | a body is accepted exactly when it is the text of an object of RFC 8259, at most 10000 deep, in which no tracked field is repeated |
| `IdentityWalk.ScanFindsSelected` | internal/gateway/identity_json_stream.go:337-563 | the strings handed on are exactly those a walk over the parse tree selects, with the role before or after the content, and `model` is read if it is a string of at most 2048 bytes |
| `IdentityReader.Reader.ReadValue` | internal/gateway/identity_json_stream.go:156-471 | the imperative reader, with its position, depth and candidate list, succeeds, moves and appends as the function does |
| `IdentityReader.Reader.ReadMembers` | internal/gateway/identity_json_stream.go:156-205 | the loop over the members of an object, with what is seen so far in its frame |
| `IdentityReader.Reader.ReadItems` | internal/gateway/identity_json_stream.go:207-244 | the loop over the items of an array |
| `IdentityReader.Reader.ScanRequest` | internal/gateway/identity_json_stream.go:473-563 | it succeeds exactly when the text is accepted, and then holds the processed strings and the model |
| `IdentityTextReader.RuneReader.Next` | internal/gateway/identity_text_stream.go:56-133 | the buffered rune reader gives the rune at its place, escapes and surrogate pairs decoded, and moves past its bytes |
| `IdentityDecoding.DecodingIsExact` | internal/gateway/identity_text_stream.go:26-113 | if bytes at the front of a string stand for a character (section 7 of RFC 8259, section 3 of RFC 3629), exactly those are taken and that character is read; otherwise the replacement character, for half a surrogate pair or one stray byte |
| `IdentityDecoding.SpelledIsDecoded` | internal/gateway/identity_text_stream.go:26-133 | however its characters were spelled, a string decodes to them |
| `IdentityTextReader.EndOfSentence` | internal/gateway/identity_text_stream.go:140-177 | on the inside of a string the loop always ends, at the place of the function; where that is, the next row says |
| `IdentityMeaning.SentenceMeans` | internal/gateway/identity_text_stream.go:140-177 | on the decoded text: the end is the first place behind the opening with a . ! ? or one of their full-width forms, but for a . in front of a letter or digit, or with a line feed after an empty line; else the end of the string |
| `IdentityMeaning.QuotesMean` | internal/gateway/identity_text_stream.go:179-204 | on the decoded text: the quote state is open exactly if some mark before, itself outside quotes, opened a quotation that no mark since closed; apostrophes between letters count for nothing, and outside quotes neither do those behind a word |
| `IdentityTextReader.LocateMatch` | internal/gateway/identity_text_stream.go:206-241 | the offsets of a match in decoded text are turned into offsets in the raw bytes, with the quotes passed on the way |
| `IdentityCuts.LocateFinds` | internal/gateway/identity_text_stream.go:206-241 | a match inside the decoded sentence is always found, as a nonempty run of whole runes of the raw text |
| `IdentityCuts.TextRemovalsAreCuts` | internal/gateway/identity_text_stream.go:243-275 | what is removed from a string is a list of nonempty runs of whole runes, in order and disjoint |
| `IdentityTextReader.ScanIdentityText` | internal/gateway/identity_text_stream.go:243-275 | the scanning loop does not fail, and emits, in order, exactly the raw bytes of those phrases of the opening sentence, each looked for behind the one before, that start outside quotes and behind which no letter, digit, _ or - follows and no . with a letter or digit behind it |
| `IdentityMeaning.EmitsExactly` | internal/gateway/identity_text_stream.go:206-275 | that statement on the decoded text leaves no choice: it holds of what the scanner emits and of nothing else |
| `IdentityMeaning.ImagesAre` | internal/gateway/identity_text_stream.go:206-241 | a span is emitted exactly if it runs from the place of the first to the place behind the last character of a phrase that is to go |
| `IdentityPatches.SelectedStrings` | internal/gateway/identity_json_stream.go:371-563 | the processed strings are string values of the tree, in order, none twice |
| `IdentityPatches.PatchesInOrder` | internal/gateway/identity_json_stream.go:337-361 | the patches of all processed strings are in order and disjoint |
| `IdentityPatches.PatchesCover` | internal/gateway/identity_json_stream.go:337-361 | a byte is removed exactly when the scan of one of the processed strings removes it |
| `IdentityRewrite.ApplyPatches` | internal/gateway/identity_json_stream.go:565-594 | the copy loop fails exactly when the patches are out of order, and otherwise writes the bytes not covered and reports their number |
| `IdentityOutcome.RewrittenIsRest` | internal/gateway/identity_json_stream.go:337-594 | the patched body is what is left of the request when the bytes of those phrases of the selected strings are left out, told without the scanner |
| `IdentityOutcome.RouteMeans` | internal/gateway/identity_json_stream.go:473-545 | which fields hold instructions depends on whether the path ends in `/responses`, `/chat/completions` or `/messages` or begins with `/v1beta/models/` |
| `IdentityGateway.WantedMeans` | internal/gateway/identity_json_stream.go:556-563 | the wanted model is the one the body names, and if it names none the one of a `/v1beta/models/` path, up to the colon |
| `IdentityRewrite.RewrittenIsAccepted` | internal/gateway/identity_json_stream.go:337-594 | the patched body is the text of the same tree with only selected strings shortened, it is accepted again, and every other string, keys and metadata included, keeps its bytes |
| `IdentityGateway.ProcessRows` | internal/gateway/identity_json_stream.go:337-361 | the loop over the processed strings collects exactly their patches |
| `IdentityGateway.RewriteBody` | internal/gateway/codex_identity.go:15-90 | for every body: one that is no accepted request goes on unchanged; an accepted one, if the wanted model is one that is rewritten, loses exactly the bytes of the phrases that are to go, and otherwise goes on unchanged |
| `ActualModels.Snapshot.Adjust` | internal/service/actual_model_incremental.go:58-77 | adding or taking away one event keeps map and totals the exact grouping of what is counted, a model without events having no entry |
| `ActualModels.Snapshot.AddFull` | internal/service/actual_model_incremental.go:84-99 | an event is always counted, and kept as a row only while every row is valid, new and within 50000 |
| `ActualModelReport.CountingReports` | internal/service/actual_model_incremental.go:46-77 | on the rows as reported: each model's calls, failures, input, output and total are those of the rows whose resolved name, else response name, else the label for none is that model, in 64-bit counters; a model is listed exactly if a row is its own |
| `ActualModelReport.UsableExactly` | internal/service/actual_model_incremental.go:79-82 | which rows a checkpoint may keep, on the fields as reported |
| `ActualModels.GroupByIsOne` | internal/service/actual_model_incremental.go:58-77 | there is only one map that groups a collection of events |
| `ActualModels.EntryShows` | internal/service/actual_model_incremental.go:58-77 | an entry holds the sums of its model's events, wrapped to 64 bits, and is there exactly when one of them counts |
| `ActualModelRefresh.DropRows` | internal/service/actual_model_incremental.go:206-215 | the loop over the map drops exactly the rows outside the range or not older than the cutoff, in any order, and the statistics stay the grouping of the rows |
| `ActualModelRefresh.Increment` | internal/service/actual_model_incremental.go:206-256 | it succeeds exactly when the pages can be read, their rows are acceptable and in order, and the totals are those of the summary; then the rows are the kept ones overlaid with what was read, and every model shows the figures of the reported rows among these |
| `ActualModelRefresh.IncrementKeeps` | internal/service/actual_model_incremental.go:206-256 | if a checkpoint kept certain reported rows, the corrected one keeps those of them in the new range that are older than the cutoff and were not read again, and the rows read |
| `ActualModelRefresh.Rebuild` | internal/service/actual_model_usage.go:16-71 | it succeeds exactly when the pages can be read and count up to the summary, and has counted every event of every page, each model showing the figures of the reported rows |
| `ActualModelRefresh.PagesAreReading` | internal/service/actual_model_usage.go:44-79 | page by page, a complete reading is found exactly if there is one: at most 200 pages, each the answer to the request after the one before, each but the last going further back, and only the last at the end or behind the cutoff |
| `ActualModelRefresh.CheckpointExactly` | internal/service/actual_model_incremental.go:84-99 | a full read leaves a checkpoint exactly if it read at most 50000 rows, each usable and no two of the same event |
| `ActualModelRefresh.IncrementIsRebuild` | internal/service/actual_model_incremental.go:206-256 | if nothing older than the overlap changed and pages come newest first, the rows after an increment are exactly the events of the new range |
| `ActualModelRefresh.RebuildIsWhole` | internal/service/actual_model_usage.go:16-71 | a full read of at most 50000 valid events leaves exactly the events of the range as rows |
| `ActualModelRefresh.SameRowsSameStatistics` | internal/service/actual_model_incremental.go:58-77 | equal rows give equal entries and totals, however they were reached |
| `ActualModelChain.IncrementMeetsRebuild` | internal/service/actual_model_incremental.go:206-256 | a successful increment and a successful full read of the same range over the same events show the same models with the same numbers and the same totals, and hold the same rows if the full read kept any |
| `ActualModelChain.WholeMeetsRebuild` | internal/service/actual_model_usage.go:16-71 | so does any checkpoint that holds the events of the range, however many increments led to it, and its figures are those of the rows that a full read lists |
| `ActualModelChain.HonestIncrementSucceeds` | internal/service/actual_model_incremental.go:206-256 | an increment does not fail if upstream pages through the events of the range, all usable and at most 50000, and its summary is right |
| `ActualModelChain.RefreshAll` | internal/service/actual_model_incremental.go:206-256 | any number of increments, each on the one before, over a log that changes under them: while they succeed, the checkpoint holds exactly the events of the last range |
| `ActualModelStore.Store.Put` | internal/service/actual_model_incremental.go:176-201 | an unusable checkpoint changes nothing; a usable one is stored, and of the others only the least recently updated go, no more than must |
| `ActualModelStore.PutKeepsLimits` | internal/service/actual_model_incremental.go:176-201 | the store stays within its numbers of scopes and rows |
| `ActualModelStore.Store.Current` | internal/service/actual_model_incremental.go:147-161 | a checkpoint is used exactly if it is recent enough and its range overlaps the wanted one from below |
| `WebsocketFrames.JudgeIsAllowed` | internal/gateway/resource_websocket.go:63-122 | the bit tests on a complete header pass exactly if sections 5.2, 5.4 and 5.5 of RFC 6455 and the message limit allow the frame there, and then count the message right |
| `WebsocketFrames.MessagesWithinLimit` | internal/gateway/resource_websocket.go:92-122 | no message of an allowed sequence of frames is larger than the limit, and the counter of an open one is its size |
| `WebsocketFilter.RunIsSane` | internal/gateway/resource_websocket.go:42-129 | the counters keep the order that the unsigned subtraction needs, and a refusal leaves a state that refuses |
| `WebsocketFilter.DeadForwardsNothing` | internal/gateway/resource_websocket.go:26-122 | after a refusal no later Write forwards a byte |
| `WebsocketFilter.AnySplitIsTheSame` | internal/gateway/resource_websocket.go:42-122 | however the client's bytes are cut into Writes, the same bytes are forwarded and the verdict is the same |
| `WebsocketStream.EveryInputParses` | internal/gateway/resource_websocket.go:42-122 | every input is a sequence of allowed frames followed by a cut-off or refused tail |
| `WebsocketStream.ClientBytes` | internal/gateway/resource_websocket.go:42-122 | for every sequence of Writes: exactly the allowed frames and the checked header and payload of the tail are forwarded, it is refused exactly if the tail is, and no message is over the limit |
| `WebsocketWriter.ResourceWebsocket.Write` | internal/gateway/resource_websocket.go:42-122 | with a connection that takes everything, Write forwards, counts, changes its fields and refuses as the bytewise filter does; with one that stops early it forwards a prefix of that |
| `ResourceMonitor.Controller.UpdateMetrics` | internal/resourcecontrol/controller.go:95-153 | the method changes timers and pause as the function on readings does |
| `ResourceMonitor.PauseIsExact` | internal/resourcecontrol/controller.go:95-153 | what one more reading does to the pause, from all readings so far: one that is not newer does nothing; one that cannot be relied on leaves the pause and stops the timers; one over the memory limit pauses for memory; one over the CPU limit alone pauses for it exactly if it ends 15 s over the limits; one under both lifts a pause exactly if it ends 10 calm seconds |
| `ResourceMonitor.FifteenLoadedSecondsPause` | internal/resourcecontrol/controller.go:131-141 | 15 s of readings over the limits do pause with the next one over the CPU limit |
| `ResourceMonitor.CalmMeans` | internal/resourcecontrol/controller.go:67-70 | how far below the limits calm is |
| `ResourceMonitor.Controller.SetPolicy` | internal/resourcecontrol/controller.go:57-64 | a new policy begins without a pause and with its timers at rest |
| `ResourceMonitor.LiftedOnlyWhenCalm` | internal/resourcecontrol/controller.go:95-153 | a pause is lifted only after at least 10 s in which every accepted reading was fresh, below both recovery thresholds and no more than 10 s after the one before |
| `ResourceMonitor.TenCalmSecondsLift` | internal/resourcecontrol/controller.go:95-153 | and after such 10 s it is lifted |
| `ResourceMonitor.CpuPauseOnlyUnderLoad` | internal/resourcecontrol/controller.go:95-153 | a pause for the CPU comes only after at least 15 s of readings, the first over the CPU limit and each over that or the memory limit |
| `ResourceMonitor.MemoryKeepsCpuTimer` | internal/resourcecontrol/controller.go:118-141 | readings after which the CPU pause is set although the CPU was low in between, because memory was high then |
| `AdmissionDecisions.EnforcedAcquireExactly` | internal/resourcecontrol/controller.go:285-319 | under an enforcing policy a request adds a lease exactly if its body fits, global, per-user and backlog room is left among the leases that are out, and nothing speaks against it; otherwise leases and counters stay, and the one event counted and sent is a refusal with the first reason in the source's order |
| `AdmissionDecisions.ObservedAcquireExactly` | internal/resourcecontrol/controller.go:285-319 | under an observing policy nothing is refused: what would have been is reported, and the request goes on |
| `AdmissionDecisions.ResumesExactly` | internal/resourcecontrol/controller.go:157-173 | a caller that takes the mutex again goes on where it stopped, under the policy it began with: to the other reasons, to the admission, or to nothing |
| `AdmissionDecisions.LoadDecides` | internal/resourcecontrol/controller.go:302-313 | with room for one more, it is let in exactly while the last reading is fresh, under the memory limit, and no pause is on |
| `AdmissionDecisions.LeaseEnds` | internal/resourcecontrol/controller.go:266-280 | a lease gives back its model once and its place in progress once, and nothing else changes |
| `AdmissionDecisions.AllFinishedIsEmpty` | internal/resourcecontrol/controller.go:245-319 | in every interleaving: once all leases have finished, both counters are zero and no user is left |
| `AdmissionDecisions.LeaseRecordsItsOwn` | internal/resourcecontrol/controller.go:252-265 | whatever the policy became since, a lease records under its own user and the policy it was let in under |
| `AdmissionDecisions.DeliveredAreCounted` | internal/resourcecontrol/controller.go:157-236 | in every interleaving: refusals and observations shown are those sent and about to be sent, and once all is delivered those the sink took |
| `AdmissionControl.LimitsHold` | internal/resourcecontrol/controller.go:157-319 | under one enforcing policy, in every interleaving, the mutex let go inside the recording included: at most Global active, PerUser for each user, Global + 4 in progress, and the counters and the user map are exactly those of the leases that have not let go, however often a lease is released |
| `AdmissionControl.LimitsHoldFromStart` | internal/resourcecontrol/controller.go:50-56 | in particular from a new controller on |
| `AdmissionControl.EventsFromStart` | internal/resourcecontrol/controller.go:157-236 | from a new controller on, under any policies, the events stay in order, and no wakeup is lost or bound to be exactly if no fatal step is taken |
| `AdmissionControl.NextKeepsCounts` | internal/resourcecontrol/controller.go:245-319 | every step of every goroutine, policy changes included, keeps the counters equal to the outstanding leases, with no user at zero |
| `AdmissionControl.EventsKeepOrder` | internal/resourcecontrol/controller.go:157-236 | what the sink took, then the batch, then the channel is always the sequence of events that were sent |
| `AdmissionControl.ExactlyFatalStepsDoom` | internal/resourcecontrol/controller.go:179-236 | from a state in which no wakeup is lost or bound to be, a step leads to one where it is bound to be exactly if a flush from outside ends by its context while the auditor is about to look, events wait in the channel and nobody has announced them; no step leads straight to a lost one |
| `AdmissionControl.DoomedIsLost` | internal/resourcecontrol/controller.go:212-236 | and then the auditor's next look puts it to sleep with events waiting and nobody to wake it |
| `AdmissionControl.NoWakeupIsLostExactly` | internal/resourcecontrol/controller.go:157-236 | over every run: no wakeup is ever lost or bound to be, exactly if no such step is taken |
| `AdmissionControl.ExpiredFlushLosesWakeup` | internal/resourcecontrol/controller.go:179-236 | a run from the start in which it happens: the auditor sleeps, the channel is not empty, and nobody is under way |
| `AdmissionControl.ObservingAdmits` | internal/resourcecontrol/controller.go:285-319 | under a policy that only observes, one user has two active requests although the limit is one |
| `AdmissionControl.StepKeeps` | internal/resourcecontrol/controller.go:157-319 | one step keeps counters, limits and order together |
| `AdmissionController.Controller.AcquireRequest` | internal/resourcecontrol/controller.go:285-319 | the method up to where it lets go of the mutex is the step of the state machine, so counters, limits and order are kept; under an enforcing policy it lets in or refuses as `EnforcedAcquireExactly` says |
| `AdmissionController.Controller.FlushEvents` | internal/resourcecontrol/controller.go:179-211 | the flush loop, draining the channel into batches of 64, is a possible run of the state machine; it lets go of the flush lock, loses, repeats and reorders nothing, and delivers all that was there if the sink takes every batch and the time suffices |
| `UpstreamCache.Cache.Store` | internal/cpamp/upstream_cache.go:107-129 | the body is stored; of the entries that have not expired only the oldest go, no more than must, until everything fits |
| `UpstreamCache.Cache.Invalidate` | internal/cpamp/upstream_cache.go:85-92 | a new generation and no entries |
| `UpstreamReads.ReadsAreNotStale` | internal/cpamp/upstream_cache.go:85-191 | in every interleaving of reads and writes: whoever is served gets a body no older than any write that had returned when the read began, entries belong to the present generation, at most one flight fetches a path in a generation, and the cache stays within 64 entries and 8 MiB |
| `UpstreamReads.NextIsHonest` | internal/cpamp/client.go:1337-1358 | each step keeps that: a flight that is overtaken by a write is not joined by readers that begin after it |
| `UpstreamReads.EveryRunServesFresh` | internal/cpamp/upstream_cache.go:85-191 | from the start on, in every interleaving: what a read is served is no older than any write that had returned when it began, and the cache stays within its limits |
| `UpstreamLives.LifeIsExact` | internal/cpamp/upstream_cache.go:107-147 | a body stored for a life, with nothing stored and no write since: a look serves it exactly if its life has not ended, and otherwise waits for a fetch |
| `UpstreamLives.EveryEndIsExplained` | internal/cpamp/upstream_cache.go:131-191 | in every run: a read was served a body that a fetch had stored less than its life before, no write begun or ended since, or one that it woke to as the answer of a fetch of the present generation; it failed only because its context ended or because such a fetch failed |
| `UpstreamLives.WaitersAreServed` | internal/cpamp/upstream_cache.go:176-190 | a reader that waits for a fetch of the present generation wakes, while no write comes between, to the body of that fetch, or to its error |
| `WildcardMatch.WildcardModelMatch` | internal/service/keys.go:1597-1623 | the loop with its last star and checkpoint terminates and computes the scan |
| `WildcardMatch.RightExactlyWithoutStars` | internal/service/keys.go:1597-1623 | the scan agrees with some expansion of the stars for every pattern exactly if the value has no star before its last character |
| `OAuthRouting.ListDefinitions` | internal/cpamp/client.go:863-907 | whatever upstream lists, the catalog has no blank name and no name twice, and holds exactly the other names that are short enough |
| `OAuthRouting.ExcludedModelRule` | internal/service/keys.go:1580-1595 | a model is off exactly if a rule names or matches it, and the wildcard reported is the first matching one |
| `OAuthRouting.SwitchesAreApartExactly` | internal/service/keys.go:1509-1521 | for a catalog: adding the rule of one model never switches another one, whatever the rules are, exactly if no model's name is a pattern that another one's name matches |
| `OAuthRouting.EnablingIsCheckedExactly` | internal/service/keys.go:1490-1521 | for a channel and a model: whatever the entries are, if they pass the check that switching on makes, every name has one owner afterwards, exactly if no other model is kept off by this model's rule alone |
| `OAuthRouting.PatternNameIsNotAlone` | internal/service/keys.go:1490-1521 | a channel without a conflict on which the check passes and switching on leaves one |
| `OAuthNames.ValidateAliasNames` | internal/service/keys.go:1364-1433 | for whatever order the map yields the models that the catalog does not list: it passes exactly if no claim of a name comes after one of another owner; then every visible name has one owner, and no entry with a blank model shares a name with a model of the catalog; and it does pass if every name has one owner and no such entry shares a name |
| `OAuthNames.PassesInEveryOrderExactly` | internal/service/keys.go:1364-1433 | it passes in every order of the map exactly if every visible name has one owner and no entry with a blank model shares a name with a model |
| `OAuthNames.PassesInSomeOrderExactly` | internal/service/keys.go:1364-1433 | it passes in some order exactly if every visible name has one owner and no entry with a blank model shares a name with a model of the catalog |
| `OAuthNames.BlankEntriesMatter` | internal/service/keys.go:1364-1433 | with one model in the catalog, an entry of it and one with a blank model and the same alias: refused in both orders of the entries and every order of the map, though no name reaches two models; with the first entry's model missing from the catalog, some order passes and some does not |
| `OAuthNames.AgreeIsOneOwner` | internal/service/keys.go:1364-1433 | the claims that have an owner agree exactly if every visible name has one owner |
| `OAuthNames.VisibleNames` | internal/service/oauth_alias_conflicts.go:21-71 | the list holds exactly the names a channel shows, own names and aliases told apart |
| `OAuthNames.NoClashIsApart` | internal/service/oauth_alias_conflicts.go:77-109 | comparing two lists finds no clash exactly if no alias of one channel is visible on the other |
| `OAuthRouting.ReadInputs` | internal/service/keys.go:1275-1320 | a form is accepted exactly if it has one line for each model that is on, each with at most 32 good names, and then says for each model which names were asked for |
| `OAuthRouting.BuildEntries` | internal/service/keys.go:1321-1335 | the entries written are the asked ones of the models that are on, and those of models that are not in the catalog as they were |
| `OAuthPortal.Portal.SaveAliases` | internal/service/keys.go:1224-1357 | conflict-freedom is kept whatever write fails; a success stored what was asked; while upstream answers, a success means that the form is good, every name has one owner, no other channel shows one of its aliases and no entry with a blank model shares a name with a model of the catalog; and a save that meets the first three succeeds unless an entry with a blank model shares a name |
| `OAuthPortal.Portal.SetModelEnabled` | internal/service/keys.go:1437-1576 | only this channel changes; a success leaves the model on, or off without entries; conflict-freedom is kept by switching on a model whose rule alone keeps no other one off, by a successful switch-off and by every one that is not risky; while upstream answers, switching off succeeds exactly for models of the catalog, and switching on as saving does |
| `OAuthPortal.SwitchOffIsSafeExactly` | internal/service/keys.go:1521-1576 | switching a model off keeps conflict-freedom under every pattern of failures exactly if the model is off already or its own name is free |
| `OAuthPortal.ExposingIsSafeExactly` | internal/service/keys.go:1521-1576 | a channel whose model lost its entries while still on is free of conflicts exactly if no other model there shows the model's own name and no other channel has it as an alias |
| `OAuthPresets.ExposedNameCollides` | internal/service/keys.go:1521-1576 | a switch-off on a conflict-free portal, whose removal of the entries takes effect but reports an error, ends with a conflict |
| `OAuthPresets.ValidateChannelPreset` | internal/service/oauth_presets.go:151-214 | a channel's preset passes exactly if it lists its models once each, consistently with the wildcard rules, with good and distinct entries of models that are on, and one owner for each name |
| `OAuthTargets.GoodPresetExactly` | internal/service/oauth_presets.go:151-214 | a preset is good exactly if it has each model of the catalog once, records for each the pattern that keeps it off and leaves it off, and its entries are well-formed ones of models that are on, no pair twice, at most 32 of a model, every name with one owner |
| `OAuthPresets.Prepare` | internal/service/oauth_global_presets.go:108-162 | preflight passes exactly if every channel's target is good and no two targets clash |
| `OAuthPresets.ApplyChannel` | internal/service/oauth_presets.go:216-300 | from any state of the channel, a success leaves one owner for each name, and the routing of the target if no model's name is a pattern for another's; only this channel's rules and entries were touched |
| `OAuthPresets.ApplyPreset` | internal/service/oauth_global_presets.go:164-213 | refused exactly if reading or preflight fails, with nothing changed; applied means that every included channel has one owner for each name and routes as its target says; restored means that every channel routes as before; channels not included never change; and only a preset that could be neither applied nor undone may end in a conflict; the routing and the conflicts where no model's name is a pattern for another's |
| `OAuthPresets.AppliedIsConflictFree` | internal/service/oauth_global_presets.go:76-98 | if all targets are apart, every included channel routes as its target and the others are unchanged, the portal is conflict-free |
| `OAuthRuns.Serve` | internal/service/keys.go:1224-1576 | over every sequence of saves, switches and presets, whatever fails: conflict-free until a request either reports a failure and is a risky switch-off or a preset that could not be undone, or switches models on whose names are patterns for others that they keep off |
| `SealedChunks.FileReads` | internal/gateway/capture.go:253-299 | either format reads back the pieces a file was written from |
| `SealedChunks.PrefixRefused` | internal/gateway/capture.go:253-299 | either format refuses every proper prefix of a file |
| `SealedChunks.ExtensionRefused` | internal/gateway/capture.go:253-299 | and every extension of one |
| `SealedChunks.NoncesDiffer` | internal/backup/crypto.go:17-60 | two frames of one file never have the same nonce |
| `CaptureFiles.CaptureWriter.Write` | internal/gateway/capture.go:177-205 | what was given grows by the bytes until a write to the disk falls short; none does while there is room |
| `CaptureFiles.CaptureWriter.Close` | internal/gateway/capture.go:222-243 | a success leaves a file that reads as the first 16 MiB of everything given, with `truncated` exactly if there was more; a failure leaves one that is refused or reads the same; with room and no failure it succeeds; closing again changes nothing and gives the same answer |
| `CaptureFiles.TornIsRefused` | internal/gateway/capture.go:253-299 | what an interrupted writer leaves is refused |
| `CaptureFiles.ReadCapture` | internal/gateway/capture.go:253-299 | the reading loop is the reading function |
| `BackupFiles.Encrypt` | internal/backup/crypto.go:17-60 | data within the frame limit becomes the file of its pieces with an empty last frame, and more is refused |
| `BackupFiles.Decrypt` | internal/backup/crypto.go:61-106 | the frame loop is the reading function |
| `BackupFiles.BackupRoundTrip` | internal/backup/crypto.go:17-106 | a file decrypts to its data, and no prefix and no extension of it decrypts |
| `SequenceIntervals.FlowIntervals.AddInterval` | ops/capture-portal-tcp.py:69-81 | the intervals stay sorted and separated and cover exactly the union, and the overlap returned is the number of positions that were covered before |
| `SequenceIntervals.FlowBytes` | ops/capture-portal-tcp.py:103-130 | over all packets of a flow, sequence numbers taken from the first one modulo 2^32: observed bytes are unique plus repeated bytes, and unique bytes are the number of positions any segment carries |

## Findings

What the code does not meet, each with an input or a run and with the exact condition.
The statements are of the model; a condition says when the code does meet it.

| where | what happens | it is right exactly when | members |
|---|---|---|---|
| internal/backup/portal_restore.go:324-407 with 615-620 | The phase is changed in memory before it is written. If the write of `switching` fails, or that of `committed` reports an error after the rename, the rollback moves files under a journal that a recovery reads as "nothing moved" or as "all new". Interrupted there, a recovery starts the services on a mixture. | the journal on disk says `switching` or `starting` whenever the memory does as the rollback begins | `RestoreExactness.SafeExactlyWhenJournalIsNotBehind`, `SwitchingIsNotRecorded`, `CommittedIsNotConfirmed` |
| internal/backup/portal_restore.go:384-397, internal/backup/restore_host_tasks.go:49-102 | A commit that was written but reported an error is rolled back. If the rollback dies before it records anything, the next recovery reads `committed`, marks the plan ready, and host services are installed for data that was taken back. | no host plan is waiting when that commit reports its error | `HostInstall.StepIsSafeExactly`, `RunIsSafeExactly`, `BothHappen` |
| internal/backup/restore_queue.go:115-241, internal/httpserver/backups.go:138-143 | A plan left by a job that died before its transaction is marked ready by the next commit of a job that has no host part. Only the idle check of the web process keeps such a job out. | no plan is waiting without a commit behind it, or about to be made, when a job without a host part is queued | `HostInstall.StepIsSafeExactly`, `RunIsSafeExactly`, `StalePlanInstalls`, `BothHappen` |
| internal/backup/manager_snapshot.go:223-260 | A recovery checks the record, starts the manager and lets go of its lease before it removes the record. One that is overtaken by a new backup starts the manager under the new lease or removes the new record, and the stopped manager has none. | no recovery is under way when a backup makes its record | `ManagerPause.SafeExactlyWhenNoRecoveryIsLate`, `RunIsSafeExactly`, `LateRecoveryHappens` |
| internal/resourcecontrol/controller.go:179-236 | Sixty-five events wait and the auditor's batch of sixty-four fails. Before the auditor looks whether to retry, a flush from outside delivers that batch and ends by its context. The auditor finds no batch and sleeps, with an event in the channel and no wake token. | no flush from outside expires while the auditor is about to look, the channel is not empty, and there is neither a token nor a sender about to leave one | `AdmissionControl.ExactlyFatalStepsDoom`, `NoWakeupIsLostExactly`, `ExpiredFlushLosesWakeup` |
| internal/service/keys.go:1521-1576 | Switching a model off writes the rule, then removes its entries, and on an error takes the rule back. If the removal took effect although it reported an error, the model's own name comes out and may collide. | the model is off already, or no other model of the channel shows its name and no other channel has it as an alias | `OAuthPortal.SwitchOffIsSafeExactly`, `HalfDone`, `OAuthPresets.ExposedNameCollides` |
| internal/service/keys.go:1597-1623 | The loop compares characters before it looks for a star in the pattern, so a star in the value is matched with the pattern's star as if that were a letter. | the value has no star before its last character | `WildcardMatch.RightExactlyWithoutStars` |
| internal/service/keys.go:1364-1433 | An entry with a blank model is refused behind a claim of the same name, although no name reaches two models: always if the claim is one of a model of the catalog, and as Go's map decides if it is one of a model that only entries name. | it never refuses such entries exactly if none with a blank model shares a name with a model, and may pass them exactly if none shares one with a model of the catalog | `OAuthNames.PassesInEveryOrderExactly`, `PassesInSomeOrderExactly`, `BlankEntriesMatter` |
| internal/service/keys.go:1490-1521, internal/service/oauth_presets.go:254-275 | The exact rule of a model is also read as a pattern if the model's name holds a star. Switching the model off then takes other models along, and switching it on brings them back, although the names were checked as if it alone came on. | no model's name is a pattern that another's matches; for one switch, no other model is kept off by this model's rule alone | `OAuthRouting.SwitchesAreApartExactly`, `EnablingIsCheckedExactly`, `PatternNameIsNotAlone` |

Two things a reader may not expect are part of the statements instead.  A pause for the
CPU counts readings over either limit, as memory pressure leaves the CPU timer running
(internal/resourcecontrol/controller.go:118-141, `ResourceMonitor.MemoryKeepsCpuTimer`).
And a policy that only observes admits over its limits
(internal/resourcecontrol/controller.go:285-319, `AdmissionControl.ObservingAdmits`).

## Assumptions

- Restore: services may write to their databases and sidecars while they run, but do not
  create or remove targets. A rename, copy, Stop or Start has happened or not when its
  error is seen; a journal write may also have happened and report an error. A write has
  no effect after it has returned. Losing a directory entry in a power failure is not a
  step of its own.
- The matchers of the instruction patcher return a nonempty match inside the sentence
  whose ends are ends of runes (`Sound`); which texts they match, and which runes count
  as letters or spaces, are parameters.
- Opening undoes sealing under the same nonce and additional data and sealing adds 16
  bytes (`Sound`); nothing is assumed about forged frames.
- A catalog lists no blank name and no name twice, which the type `Catalog` says and
  `OAuthRouting.ListDefinitions` proves of the client that reads it.
- Upstream answers a listing from one log of events, newest first, in consecutive pages
  (`Honest`).
- Upstream's management writes end in one of three ways: done, failed, or done with an
  error reported.

## Left out

- HTTP, GitHub upload and download, retention, Docker and systemd commands, SQL and pages.
- AES-GCM, SHA-256, gzip, tar, SQLite and the regular expression engine.
- Preparing the restored database and copying the auths directory: parts of one staging step.
- Schedules, quota percentages, charts, audit labels and times, sessions and passwords.
- Bytes are integers in a range, and floating-point measurements are reals without rounding.
- RestoreProgress.OnlyFailuresStopARecovery: does not claim that recovery gets through when steps keep failing, because a crash during the removal of the stages needs an operator (internal/backup/portal_restore.go:560-567).
- RestoreExactness.SafeExactlyWhenJournalIsNotBehind: the unsafe direction is stated for jobs whose first target is an existing database, as the targets of every policy begin with the portal's database (internal/backup/portal_restore.go:111-127).
- HostInstall.InstallsOnlyCommitted: models one installer call as one step that succeeds or fails; what the host services do is left out.
- IdentityRewrite.RewrittenIsAccepted: does not say that the decoded text is the old one minus the phrase, because lone surrogates on both sides of a removal can join into one rune.
- IdentityGateway.RewriteBody: the spool files, the limits on candidate bytes and patch counts, and the cancellation of a request are not modelled; the body is a sequence of bytes.
- ActualModelChain.RefreshAll: pages are given by a function of the page number; the HTTP error cases are one outcome, "no page".
- ActualModelStore.Store.Put: times are given by the caller.
- AdmissionControl.LimitsHold: the reason the monitor adds enters as a parameter of each acquisition, and a change of policy ends the statement, as outstanding leases may exceed new limits.
- AdmissionController.Controller.FlushEvents: a flush that ends by its context in the middle is a step of the state machine only; a nil event sink is left out.
- UpstreamReads.ReadsAreNotStale: the generation counter does not wrap.
- UpstreamLives.LifeIsExact: how long the bodies of a path live is a parameter of each store.
- OAuthNames.ValidateAliasNames: its statements about entries with a blank model are for models with names (`NamedModels`), which those of a catalog have.
- OAuthPresets.ApplyPreset: does not claim that a valid preset can be applied, because entries of models missing from the catalog can collide with names that the clearing step exposes; where a model's name is a pattern for another's, says only that each name has one owner, because one switch then moves other models; reasoning caps are one parameter (`capsFit`) and one step, and revisions and display names are left out.
- OAuthRouting.ReadInputs: names are trimmed and lower-cased already, and the 4096-byte limit of a line's text is left out.
- SequenceIntervals.FlowBytes: packets are decoded already; sorting is by insertion instead of the library's sort.
- The order of ties in Go's sorts; its map iteration takes any order in the model.
