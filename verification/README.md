# A model of agentsview's archive, sync and background protocols

agentsview keeps an archive of agent sessions, serves analytics over it, and runs background
workers that push, back up and consolidate. This project models the parts whose correctness
does not follow from reading one function, and proves what they promise. Check it with
`dafny verify dfyconfig.toml`.

- **Model-scoped messages.** `MessageScope` states by look-ahead which rows a model filter
  selects, and proves that the one-pass form computes them. `ScopeReducers`, `ScopeProjections`
  and `ScopeResolver` are the streaming class, its statistics and timing views, and the chunked
  resolution.
- **Background loops.** `PushLoops` and `Controllers` are transition systems over all
  interleavings of callers, timers, cancellation and the loop, with a class whose methods are
  the atomic steps. The backup and the consolidation controller are the same protocol.
- **Ownership.** `WriteOwnership` (the archive's file lock), `DaemonHandoff` (start lock to
  runtime record) and `PidLock` (the pid file of the workers) are transition systems over
  any number of processes that may die at any step.
- **Cycles.** `Decisions` and `ConsolidateCycle` model the consolidation worker over its
  staging directories, with `JsonExtract` and `JsonText` for its reading of a model's reply.
  `BackupRemote` and `BackupCycle` model the backup over an abstract git in which every
  command may fail.
- **Canonical forms and aggregates.** `ClassifierPreimage` and `Automation` (the classifier hash
  and what it says about classification), `TerminalSanitize`, `TranscriptEquality`,
  `Activity`, `SummaryAgreement`, `SpeedBursts` (the merging of rows into generation events), and
  the folds of `SkillAnalytics`, `SignalAnalytics` and `VelocityAnalytics`, which share the sums
  and lists of `Grouping`.

`Sequences`, `Strings` (the byte-wise order and sorting by it) and `Numbers` hold what several
of these need.

Strings stand for byte strings, one char per byte, except in `TerminalSanitize`, which has
bytes of its own. Clocks, the file system, git, gh, the model, the script and JSON decoding
enter as parameters that say how each call ends; a statement over all parameters is a
statement over all behaviours of the outside.

## Where the code and its description differ

Each difference has a concrete input and, where the code meets the description under a
condition, that condition as an if-and-only-if.

- The check of the backup's remote is meant to keep memory from being pushed to another
  repository. It reads the name behind the first "github.com" anywhere in the URL, or the
  whole text without one, so other hosts and plain paths pass:
  `BackupRemote.HostInPathIsAccepted`, `LongerHostIsAccepted`, `LongerDomainIsAccepted` and
  `PathIsAccepted`; `BackupCycle.PushesOffGitHub` pushes there. Which remotes pass is in
  `BackupRemote.AcceptedIff`, and which of those are GitHub's in `AcceptedIsGitHubIff`.
- The check reads the URL that git fetches from, while a push goes to the push URLs if any are
  set: `BackupCycle.PushURLLeaks`. When a push goes to the repository alone is in
  `PushesOnlyToTheRepo`.
- The guard against copying outside the backup takes every relative path that begins with two
  dots for one, so notes named like that are never backed up:
  `BackupCycle.DottedNotesAreLost`. The exact condition is in `BackedUpIff`.
- The pid lock is meant to admit one process. Two reclaimers of one stale file can both win,
  and reclaims that do not overlap in time are not enough: `PidLock.TwoReclaimersBothHold`,
  `LateJudgeSteals`. The exact condition is in `AtMostOneIffNoClash`.
- The ordering in `runServe` is meant to leave no instant without lock or record. A cleanup
  that listed a dead owner of a reused pid removes the new record:
  `DaemonHandoff.ReusedPidIsSweptAway`. The exact condition is in `VisibleIffNoHarmfulSweep`.
- `SnapInterval` promises at most 50 buckets. The layout can have 51, since it is anchored up
  to a second before the earliest message: `Activity.FiftyOneBuckets`. The exact condition is
  in `FiftyOneBucketsIff`.
- Moving consumed candidates is meant to keep them recoverable. A file name used again
  replaces the older file: `ConsolidateCycle.ConsumedTextIsLost`. The exact condition is in
  `ConsumedIsKeptIff`.
- Files that land while the model is asked are meant to wait for the next cycle. One that
  replaces a candidate is drained unread: `ConsolidateCycle.LandedIsDrainedUnread`. The exact
  condition is in `LandedStaysIff`.
- A leading note in a model's reply is meant to be tolerated. One with a brace hides the object:
  `JsonText.BraceInProseMisleads`. The exact condition is in `NoteIsToleratedIff`.
- Rows of one request are meant to merge always. They do not across a row of another request:
  `SpeedBursts.SharedRequestSplits`. The exact condition is in `InOneBurstIff`.
- A non-zero `git commit` is taken for an unchanged tree. For any other reason the backup
  reports success without the new files: `BackupCycle.CommitFailureIsSilent`. The exact
  condition is in `PushedTreeIsSnapshot`.
- `sanitizeTerminal` says that its output is valid UTF-8. Its shortcut lets invalid bytes
  from 0xA0 on through: `TerminalSanitize.InvalidByteSurvives`. The exact condition is in
  `ShortcutAgreesIffOutputValid`.
- The ranked query and the fold differ on sessions without messages:
  `SummaryAgreement.EmptySessionDisagrees`. The exact condition is in `SummariesAgree`.
- The latest use of a skill depends on the order of the rows if one instant is written in two
  ways: `SkillAnalytics.OffsetsMakeOrderMatter`. The exact condition is in
  `LastUsedIgnoresOrderIff`.

## Model

| member | source | states |
|---|---|---|
| `MessageScope.EmitOrderIsExact` | internal/db/messagescope_reducer.go:37-96 | Exactly the matched rows are emitted, each once, ordered by the row that triggered them and then by their own position; a prompt turn without a model is matched by the next assistant row of its session if that row is selected, any other row by its own model, and both must meet the day and hour targets |
| `MessageScope.MatchedByUnique` | internal/db/messagescope_reducer.go:62-82 | A row is matched by at most one arrival, never by an earlier one |
| `MessageScope.ReduceRefinesSpec` | internal/db/messagescope_reducer.go:37-96 | The one-pass form with its pending buffer computes the rows of the look-ahead specification, in the same order, and buffers exactly the unanswered turns of the current session |
| `ScopeReducers.ContinuesIsNecessary` | internal/db/messagescope_reducer.go:38-60 | A grouped stream never reopens a session and never steps back in ordinal |
| `ScopeReducers.ContinuesIsSufficient` | internal/db/messagescope_reducer.go:38-60 | A row that does neither keeps the stream grouped, so the cheap check against the last row and the seen set is exact |
| `ScopeReducers.ScopeReducer.Push` | internal/db/messagescope_reducer.go:37-82 | A row is refused, with nothing changed, exactly if it breaks the grouping; otherwise the rows handed on extend the emitted rows to those of the longer stream |
| `ScopeReducers.ScopeReducer.Enter` | internal/db/messagescope_reducer.go:38-60 | The grouping check and the switch to a new session, which drops the pending turns of the old one |
| `ScopeReducers.ScopeReducer.Pair` | internal/db/messagescope_reducer.go:62-82 | An arriving row is buffered, or decides itself and the turns it answers |
| `ScopeReducers.ScopeReducer.Flush` | internal/db/messagescope_reducer.go:84-89 | Flushing hands on the buffered turns that meet the day and hour targets, in order, and leaves the buffer empty |
| `ScopeReducers.ScopeReducer.AppendMatched` | internal/db/messagescope_reducer.go:91-96 | One matched row is handed on exactly if it meets the day and hour targets |
| `ScopeProjections.ScopeStats` | internal/db/messagescope.go:107-133 | The counting loop computes, per statistic, the number of rows of its kind and the sum of reported tokens |
| `ScopeProjections.StatsAdditive` | internal/db/messagescope.go:107-133 | The statistics of two streams put together are the sums of their statistics |
| `ScopeProjections.StatsPermutation` | internal/db/messagescope.go:107-133 | The statistics do not depend on the order of the rows |
| `ScopeProjections.ScopeTiming` | internal/db/messagescope.go:139-155 | The timing view is the stable sort of the rows by ordinal |
| `ScopeProjections.StableSortSorts` | internal/db/messagescope.go:139-155 | The sort orders the rows and keeps all of them |
| `ScopeProjections.StableSortIsStable` | internal/db/messagescope.go:139-155 | The sort keeps rows of equal ordinal in their order |
| `ScopeProjections.TimingIsConversationOrder` | internal/db/messagescope.go:135-155 | With strictly increasing ordinals the timing view of the emitted rows, whatever their emit order, lists the matched rows in conversation order |
| `ScopeProjections.DayHourIsAPostFilter` | internal/db/messagescope_reducer.go:84-96 | Reducing with day and hour targets equals reducing without them and filtering the output |
| `ScopeResolver.EmitsIsLocal` | internal/db/analytics_scope.go:66-118 | What a stream emits for a session is what the rows of that session alone emit |
| `ScopeResolver.Dedupe` | internal/db/analytics_scope.go:44-52 | Session ids are deduplicated to their first occurrences |
| `ScopeResolver.FirstOccurrencesAreDistinct` | internal/db/analytics_scope.go:44-52 | Deduplication drops repeats and nothing else |
| `ScopeResolver.MessageCollector.Emit` | internal/db/analytics_scope.go:56-59 | The callback appends a message to the list of its session and changes no other list |
| `ScopeResolver.ReduceChunk` | internal/db/analytics_scope.go:66-118 | A fresh reducer per chunk collects what the rows of the chunk emit, or fails exactly if they are not grouped |
| `ScopeResolver.ReduceChunks` | internal/db/analytics.go:28-41 | All chunks of at most 500 ids are processed in turn, up to the first failure |
| `ScopeResolver.Resolve` | internal/db/analytics_scope.go:34-125 | A resolution is unscoped without a model filter, refused exactly if some chunk is not grouped, and otherwise groups what the chunks emit by session |
| `ScopeResolver.ChunkingIsInvisible` | internal/db/analytics_scope.go:34-125 | Deduplicating, chunking and one reducer per chunk give every session the messages that one reducer over all rows, or over its own rows, gives |
| `PushLoops.NoLostNotification` | cmd/agentsview/pg_watch_loop.go:61-107 | In every interleaving, a notification not yet followed by a push leaves a token in the channel or the loop armed |
| `PushLoops.UnpushedByPosition` | cmd/agentsview/pg_watch_loop.go:61-107 | The step-wise notion of an unserved notification is the one told by positions in the run |
| `PushLoops.ReturnFlushes` | cmd/agentsview/pg_watch_loop.go:74-84 | When Run has returned, one shutdown push was started, after every notification that a push served; an unserved one still sits in the channel |
| `PushLoops.ServedIffBeforeFlush` | cmd/agentsview/pg_watch_loop.go:74-84 | After Run has returned, a notification was followed by a push exactly if it came before the shutdown push began, and one after it still sits in the channel |
| `PushLoops.PushesDoNotOverlap` | cmd/agentsview/pg_watch_loop.go:69-107 | Between two push starts the earlier push has returned |
| `PushLoops.ArmedByFirst` | cmd/agentsview/pg_watch_loop.go:85-101 | The armed timer is that of the first notification taken since the last push began: the debounce is not restarted |
| `PushLoops.ArmedUntilPush` | cmd/agentsview/pg_watch_loop.go:85-101 | Once armed, the loop keeps its timer until a push starts |
| `PushLoops.ChangePushHasItsTimer` | cmd/agentsview/pg_watch_loop.go:85-101 | A change push is fired by the timer armed last, so one dropped by a floor tick never fires a push |
| `PushLoops.ChangePushesBounded` | cmd/agentsview/pg_watch_loop.go:61-107 | Change pushes never outnumber notifications |
| `PushLoops.UnpushedCanFire` | cmd/agentsview/pg_watch_loop.go:69-107 | From any waiting state an unserved notification reaches a change push in at most three steps of the loop and its timer |
| `PushLoops.PushLoop.NotifyDirty` | cmd/agentsview/pg_watch_loop.go:61-66 | A notification never blocks and is recorded even if the channel is full |
| `PushLoops.PushLoop.Select` | cmd/agentsview/pg_watch_loop.go:69-101 | One pass of the select is one step of the transition system |
| `PushLoops.PushLoop.FinishPush` | cmd/agentsview/pg_watch_loop.go:103-107 | The loop goes on after a push, whether it failed or not, and is done after the shutdown push |
| `Controllers.EnableIsNotForgotten` | internal/backup/controller.go:56-119 | With any number of callers: while enabled with no cycle since the switch, a token is queued, a caller is about to fire, or the loop has yet to act on a check |
| `Controllers.OwedByPosition` | internal/backup/controller.go:56-119 | That no cycle has started since the last off-to-on switch, told by positions in the run |
| `Controllers.RestingMeansServed` | internal/backup/controller.go:56-119 | At rest with the flag on, a cycle has started since the flag last went on |
| `Controllers.OwedCanRun` | internal/backup/controller.go:56-119 | An owed enable is served within five steps of pending callers and the loop |
| `Controllers.CyclesRunWhenEnabled` | internal/backup/controller.go:106-119 | Every cycle starts right after the loop read the flag as on, with only callers acting in between |
| `Controllers.CyclesBounded` | internal/backup/controller.go:56-119 | Cycles, with all that may still become one, number at most one plus the off-to-on switches plus ticks and Trigger calls |
| `Controllers.CyclesPerEnable` | internal/backup/controller.go:56-119 | Without ticks and Trigger calls, cycles are at most one more than the off-to-on switches |
| `Controllers.CyclesDoNotOverlap` | internal/consolidate/controller.go:86-121 | Between two cycle starts the earlier cycle has ended |
| `Controllers.Controller.SwapEnabled` | internal/backup/controller.go:56-66 | SetEnabled fires exactly on an off-to-on transition |
| `Controllers.Controller.ReadForTrigger` | internal/backup/controller.go:68-73 | Trigger fires exactly while the flag is on |
| `Controllers.Controller.Send` | internal/backup/controller.go:75-82 | The send coalesces with a queued token |
| `Controllers.Controller.LoopCheck` | internal/backup/controller.go:86-119 | A check starts a cycle exactly if the flag is on |
| `Controllers.Controller.LoopSelect` | internal/backup/controller.go:94-112 | One pass of the select is one step of the transition system |
| `Controllers.Controller.LoopCycle` | internal/backup/controller.go:115-119 | A cycle starts and ends before the loop selects again |
| `WriteOwnership.SingleWriter` | cmd/agentsview/write_lock.go:36-153 | In every run of any number of processes, openers and deaths, at most one live opener has the archive open for writing, whatever the advisory checks answer |
| `WriteOwnership.RunsAreOwned` | cmd/agentsview/write_lock.go:36-153 | Every opener between taking and giving back the lock holds it |
| `WriteOwnership.LockIsNotLeaked` | cmd/agentsview/write_lock.go:59-153 | While no unlock fails, the lock is held only by an opener that has not finished |
| `WriteOwnership.DeathFreesTheLock` | cmd/agentsview/write_lock.go:36-64 | The death of a process frees the lock it held and blocks nobody |
| `WriteOwnership.FreeLockIsTaken` | cmd/agentsview/write_lock.go:66-87 | A new opener whose checks pass gets the archive when the lock is free |
| `WriteOwnership.Archive.OpenWriteDB` | cmd/agentsview/write_lock.go:66-87 | Opening succeeds exactly if the check passes, the lock is free and taken, and open and configuration succeed; every refusal leaves the lock as it was |
| `WriteOwnership.Archive.ValidateOwnership` | cmd/agentsview/write_lock.go:89-105 | The advisory check refuses an opener or lets it go on to the lock |
| `WriteOwnership.Archive.AcquireWriteOwnerLock` | cmd/agentsview/write_lock.go:36-57 | The lock is taken without waiting, exactly if it is free and no error occurs |
| `WriteOwnership.Archive.OpenLocked` | cmd/agentsview/write_lock.go:66-87 | Under the lock, a failing open or configuration closes the archive and then releases the lock |
| `WriteOwnership.Archive.CloseWriteDB` | cmd/agentsview/write_lock.go:142-153 | The archive is closed first and the lock given back afterwards even if the close reports an error; a failing unlock keeps it, and either error is reported |
| `DaemonHandoff.StartLockIsKept` | cmd/agentsview/daemon_runtime.go:456-504 | In every run a daemon that took the start lock holds it until its record is written, or throughout if the write fails |
| `DaemonHandoff.VisibleIffNoHarmfulSweep` | cmd/agentsview/daemon_runtime.go:255-325 | Throughout a run every daemon that took the start lock and is not shutting down is visible by lock or record, exactly if no cleanup hits a path rewritten since it was listed by such a daemon that serves already or hands off later |
| `DaemonHandoff.LostRecordWasSwept` | cmd/agentsview/daemon_runtime.go:255-325 | A daemon without its record has had it removed by such a cleanup, and if it serves now, it did then or has handed off since |
| `DaemonHandoff.StaysLost` | cmd/agentsview/daemon_runtime.go:456-504 | A record once swept away is never written again, so the daemon is out of sight as soon as it gives up the lock |
| `DaemonHandoff.RecordsStep` | cmd/agentsview/daemon_runtime.go:255-325 | Of all steps, exactly the cleanup of a live path loses a record, marked daemon or not |
| `DaemonHandoff.HandoffHasNoGap` | cmd/agentsview/main.go:111-129 | What can be checked when a record is written: if no record is written to a path listed for a dead process, a daemon that took the start lock is visible at every instant until shutdown begins |
| `DaemonHandoff.ReusedPidIsSweptAway` | cmd/agentsview/daemon_runtime.go:255-325 | The condition is needed: with a pid used again, a cleanup that listed the dead owner removes the record of the live one |
| `DaemonHandoff.DeathFreesTheStartLock` | cmd/agentsview/main.go:310-332 | The death of a daemon frees the start lock |
| `PidLock.AtMostOneIffNoClash` | internal/backup/lock.go:31-89 | At most one live process holds the lock throughout a run exactly if no file is created while somebody stands robbed: a contender has removed the file of a live owner, which was no longer the file it had read, and that owner has neither released nor died since |
| `PidLock.FilelessOwnerWasRobbed` | internal/backup/lock.go:31-89 | As long as there has been at most one owner, an owner without the lock file had it removed by a contender that had read another file |
| `PidLock.RunsKnowCreators` | internal/backup/lock.go:67-82 | A contender that judged a pid dead has read a file whose creator, if it was a contender, is gone for good |
| `PidLock.ExclusiveStep` | internal/backup/lock.go:31-89 | Every owner keeps its own file as the lock file in a step exactly if the step does not remove the file of a live owner as stale |
| `PidLock.UndisturbedIsExclusive` | internal/backup/lock.go:31-82 | If nobody touches the file between a contender reading it and removing it, at most one live process holds the lock at any time, and its file is the lock file |
| `PidLock.TwoReclaimersBothHold` | internal/backup/lock.go:31-82 | Two contenders that judge the same stale file dead can both win |
| `PidLock.LateJudgeSteals` | internal/backup/lock.go:67-82 | Even reclaim sections that never overlap do not suffice: one late reclaimer can remove a fresh lock |
| `PidLock.UnreadablePidIsNeverReclaimed` | internal/consolidate/lock.go:67-83 | A file without a readable pid is never stolen, and nobody ever gets the lock |
| `PidLock.DeathBeforeWriteWedges` | internal/backup/lock.go:54-65 | An owner that dies between creating the file and writing its pid leaves such a file behind |
| `PidLock.StaleFileIsReclaimed` | internal/backup/lock.go:31-82 | A file that names a dead process is reclaimed by the next undisturbed contender, which then holds the lock under its own pid |
| `JsonExtract.ExtractJSONObject` | internal/consolidate/consolidate.go:116-150 | The scan with depth, string and escape flags returns the text from the first brace to where the depth returns to zero |
| `JsonExtract.FindsBalancedObject` | internal/consolidate/consolidate.go:112-150 | Text that balances outside string literals is found behind any prefix without a brace and before any suffix |
| `JsonExtract.FoundIsBalanced` | internal/consolidate/consolidate.go:112-150 | Whatever is found starts at the first brace and balances, at its end for the first time |
| `JsonExtract.FoundIffBalanced` | internal/consolidate/consolidate.go:112-150 | Nothing is found exactly if no balanced text follows the first brace |
| `JsonText.ObjectIsBalanced` | internal/consolidate/consolidate.go:112-150 | Every object in the syntax of sections 4 and 7 of RFC 8259 balances, whatever braces, quotes and escapes its strings hold |
| `JsonText.ExtractsAnyObject` | internal/consolidate/consolidate.go:112-150 | Every printed JSON object is extracted exactly, behind prose without a brace and before any text |
| `JsonText.NoteIsToleratedIff` | internal/consolidate/consolidate.go:73-82 | The scan starts at the object exactly if the text before it has no brace, and then finds it; with a brace there, whatever is found starts inside that text |
| `JsonText.BraceInProseMisleads` | internal/consolidate/consolidate.go:116-150 | A leading note with a brace hides the object |
| `Decisions.Normalize` | internal/consolidate/consolidate.go:58-71 | An unknown verb becomes SKIP with a reason; a known one is kept in canonical form with its reason and note |
| `Decisions.ParseDecisions` | internal/consolidate/consolidate.go:82-110 | A reply is refused without an object, undecodable, empty, or without a known candidate, in that order; otherwise it yields the normalized decisions on candidates that were sent |
| `Decisions.DecidedIsSafe` | internal/consolidate/consolidate.go:73-110 | Decisions are never empty, answer only candidates that were sent, and name only the five verbs |
| `Decisions.DecidedIff` | internal/consolidate/consolidate.go:82-110 | A reply yields decisions exactly if its first object decodes and answers some candidate |
| `Decisions.WrappingDoesNotMatter` | internal/consolidate/consolidate.go:73-110 | Prose and fences around the printed object change nothing |
| `Decisions.DecisionCounts` | internal/consolidate/worker.go:373-389 | The counting loop counts the decisions of each verb |
| `Decisions.CountsAddUp` | internal/consolidate/worker.go:373-389 | The five counts add up to the number of decisions exactly if every verb is a known one |
| `ConsolidateCycle.BacklogIsUnique` | internal/consolidate/consolidate.go:194-231 | The backlog, the readable candidate files by name, is determined by the directory |
| `ConsolidateCycle.Worker.ReadCandidates` | internal/consolidate/consolidate.go:194-231 | Whatever order the directory lists, the candidates read are the backlog with their effective ids |
| `ConsolidateCycle.DrainIsExact` | internal/consolidate/worker.go:277-312 | A drain moves exactly the files of decided candidates whose move succeeds |
| `ConsolidateCycle.Worker.DrainConsumed` | internal/consolidate/worker.go:277-312 | The drain loop moves those files one by one and counts them |
| `ConsolidateCycle.CycleMovesDecided` | internal/consolidate/worker.go:160-312 | Whatever model, script and other writers do, a cycle moves exactly the decided part of its batch, and only once its script ran |
| `ConsolidateCycle.OnlyDecidedAreDrained` | internal/consolidate/worker.go:160-312 | A file that leaves the raw directory was in the batch and its id has a decision in the reply |
| `ConsolidateCycle.CycleKeepsNames` | internal/consolidate/worker.go:160-312 | No cycle loses a file name, and every raw file keeps its content where it stays or goes |
| `ConsolidateCycle.DrainReplacesNamesakes` | internal/consolidate/worker.go:277-312 | A consumed file keeps its content unless a drained file has the same name |
| `ConsolidateCycle.ConsumedIsKeptIff` | internal/consolidate/worker.go:277-312 | A cycle keeps the content of every consumed file exactly if every file it drains onto a namesake has the same content |
| `ConsolidateCycle.ConsumedTextIsLost` | internal/consolidate/worker.go:277-312 | A cycle in which it is lost: a decided candidate replaces a consumed namesake, whose content is in neither directory afterwards |
| `ConsolidateCycle.LandedStaysIff` | internal/consolidate/worker.go:277-312 | Every file that lands while the model is asked stays in the raw directory with its content exactly if none has the name of a candidate that is drained |
| `ConsolidateCycle.LandedIsDrainedUnread` | internal/consolidate/worker.go:277-312 | A cycle in which one does not stay: it replaced a candidate and is drained with the decision on the replaced text |
| `ConsolidateCycle.FailureBeforeScriptDrainsNothing` | internal/consolidate/worker.go:160-240 | A cycle that fails before or at its script drains nothing |
| `ConsolidateCycle.CycleCountsAddUp` | internal/consolidate/worker.go:216-223 | The five counts of a record add up to the number of decisions parsed |
| `ConsolidateCycle.NamesNeverShrink` | internal/consolidate/worker.go:160-312 | Over any run of cycles and landings no file name is ever lost |
| `ConsolidateCycle.SmoothCycle` | internal/consolidate/worker.go:160-312 | A cycle that decides and moves its whole batch takes that batch off the front of the backlog |
| `ConsolidateCycle.BacklogEmpties` | internal/consolidate/worker.go:190-195 | When every batch is decided and moved, the backlog is empty exactly from cycle ceil(n / batch size) on |
| `ConsolidateCycle.Worker.AnyWrite` | internal/consolidate/worker.go:484-501 | A commit is due exactly if some decision has a result line that says a note changed |
| `ConsolidateCycle.Worker.RunOnce` | internal/consolidate/worker.go:160-274 | Every path of a cycle leaves the directories as specified and appends one record that says what happened |
| `BackupRemote.OwnURLMatches` | internal/backup/worker.go:313-337 | The URL a workspace is given names the configured repository exactly if its name is not empty and has no outer white space, .git suffix, outer slash or leading colon |
| `BackupRemote.NameOfOwnURL` | internal/backup/worker.go:313-337 | What is read out of that URL is the name in lower case without outer slashes and colons |
| `BackupRemote.AcceptedIff` | internal/backup/worker.go:320-337 | A remote is accepted exactly if its text, less case, outer white space and one .git suffix, is the name within slashes, behind the first mention of github.com and any run of colons and slashes, or with no mention at all |
| `BackupRemote.AcceptedIsGitHubIff` | internal/backup/worker.go:320-337 | An accepted remote is an ssh or https URL of the repository on the host github.com exactly if what precedes the first mention of the host is nothing, a user, or a scheme with or without a user, and one separator follows it |
| `BackupRemote.GitHubURLAcceptedIff` | internal/backup/worker.go:320-337 | Such a URL is accepted exactly if its host is the first mention of github.com in it and the name has no outer slash or leading colon |
| `BackupRemote.AcceptedBehind` | internal/backup/worker.go:320-337 | Any lower-case lead without a g, then github.com and any run of colons and slashes, is accepted before the name o/n; on GitHub is only what has a proper lead and one separator |
| `BackupRemote.HostInPathIsAccepted` | internal/backup/worker.go:76-81 | The remote https://e.x/github.com/o/n, on another host, is accepted for o/n |
| `BackupRemote.LongerHostIsAccepted` | internal/backup/worker.go:76-81 | The remote evilgithub.com:o/n, on another host, is accepted for o/n |
| `BackupRemote.LongerDomainIsAccepted` | internal/backup/worker.go:76-81 | The remote https://github.como/n, on another host, is accepted for o/n |
| `BackupRemote.PathIsAccepted` | internal/backup/worker.go:76-81 | The path o/n is accepted for the repository o/n |
| `BackupRemote.OwnURLIsGitHub` | internal/backup/worker.go:313-337 | The URL that the backup sets itself is on GitHub whenever it is accepted |
| `BackupCycle.PushesOnlyToTheRepo` | internal/backup/worker.go:57-110 | A cycle that does not succeed leaves every remote as others made it; a success pushes to the targets of an origin whose URL passes the check, to a head that descends from the old ones, and goes nowhere but to the repository on GitHub exactly if that URL names the host properly and no push URL is set, or every push URL is one of the repository |
| `BackupCycle.FreshBackupGoesToGitHub` | internal/backup/worker.go:124-150 | A success of a workspace that had no remote, and whose remote nobody rewrote, pushed to the repository on GitHub and nowhere else |
| `BackupCycle.PushesOffGitHub` | internal/backup/worker.go:76-81 | A remote that passes the check without naming the host properly is pushed to like any other |
| `BackupCycle.PushURLGoesUnchecked` | internal/backup/worker.go:210-227 | A push URL is never looked at: the backup goes there instead of to the origin that passed the check |
| `BackupCycle.PushURLLeaks` | internal/backup/worker.go:74-81 | With the own URL of the repository o/n as origin and a push URL of x/public, the backup is pushed to x/public and o/n does not change |
| `BackupCycle.PushedTreeIsSnapshot` | internal/backup/worker.go:57-110 | After a success the managed trees pushed are the snapshot less untracked ignored files, whatever was left behind, exactly if the commit did not fail or the base already held it |
| `BackupCycle.CommitFailureIsSilent` | internal/backup/worker.go:244-259 | A commit that fails for any reason is reported as success, the old head is pushed, and no remote changes but those of push URLs |
| `BackupCycle.IgnoredStaysOut` | internal/backup/worker.go:193-208 | An ignored file is pushed only if git already tracked it, so the lock file of the running cycle stays out of a fresh backup |
| `BackupCycle.LockFileStaysOut` | internal/backup/worker.go:193-208 | If git ignores what the ignore file names, no lock or temporary file, at any depth, enters a fresh backup |
| `BackupCycle.FetchedRemoteAccepts` | internal/backup/worker.go:174-190 | A remote that was fetched and not changed since accepts the push without force |
| `BackupCycle.StatusTellsTheLastResult` | internal/backup/worker.go:278-305 | Over any run, the status shows an error exactly if the last cycle past the lock failed, and keeps the time of the last success through failures |
| `BackupCycle.HistoryIsKept` | internal/backup/worker.go:261-276 | Over any run, every remote head descends from what it was, if others do not force either |
| `BackupCycle.DescendsTransitive` | internal/backup/worker.go:174-190 | Descent carries over from cycle to cycle |
| `BackupCycle.OriginIsNeverOverwritten` | internal/backup/worker.go:124-150 | An existing origin is never changed, a missing one becomes the own URL of the repository, nothing else of the workspace changes, and the workspace is ready only with an origin that was absent or passed the check |
| `BackupCycle.BasingKeepsUntracked` | internal/backup/worker.go:174-190 | Basing on the fetched head keeps the origin and every untracked file outside the fetched tree, and takes over that tree whole; without a fetch nothing changes |
| `BackupCycle.BackupWorker.EnsureWorkspace` | internal/backup/worker.go:115-172 | Origin, base and ignore file are in place, or the workspace is as the failing step leaves it |
| `BackupCycle.VerifiedMatches` | internal/backup/worker.go:210-242 | The check before the push changes nothing, and passes only with an origin that the matcher accepts |
| `BackupCycle.SnapshotIsMirror` | internal/backup/syncer.go:67-173 | The snapshot holds exactly the regular files that pass the audit, database and git filters and whose path relative to the copied directory does not begin with two dots, below their fixed directories |
| `BackupCycle.BackedUpIff` | internal/backup/syncer.go:130-155 | A file that passes the audit, database and git filters is backed up exactly if the first name below the copied directory does not begin with two dots |
| `BackupCycle.AllBackedUpIff` | internal/backup/syncer.go:130-155 | Every such file is backed up exactly if no such name begins with two dots |
| `BackupCycle.DottedNotesAreLost` | internal/backup/syncer.go:148-151 | The notes ..notes.md and ..old/a.md are never backed up |
| `BackupCycle.TwoRefillsSync` | internal/backup/syncer.go:38-65 | Resetting and refilling the trees one after the other replaces both and touches nothing else |
| `BackupCycle.BackupWorker.CopyTree` | internal/backup/syncer.go:107-173 | The walk copies exactly the files that pass all filters and counts them |
| `BackupCycle.CountIsExact` | internal/backup/syncer.go:107-163 | The count is the number of files copied |
| `BackupCycle.BackupWorker.SyncSources` | internal/backup/syncer.go:38-65 | A sync replaces both trees by the snapshot, and reports how many files came from each source |
| `BackupCycle.BackupWorker.CommitBackup` | internal/backup/worker.go:244-259 | Everything not ignored is staged and committed; a commit that exits non-zero changes nothing and is no failure |
| `BackupCycle.BackupWorker.RunOnce` | internal/backup/worker.go:57-110 | The steps run in order, each failure ends the cycle, is recorded and releases the lock |
| `Strings.SortForgetsOrder` | internal/db/classifier_hash.go:42-49 | Sorting forgets the order of a pattern list and nothing else |
| `ClassifierPreimage.EntryReadsOnce` | internal/db/classifier_hash.go:42-49 | A tagged, length-prefixed entry can be read off a text in only one way, whatever tabs and line breaks the pattern holds |
| `ClassifierPreimage.EntriesReadOnce` | internal/db/classifier_hash.go:42-49 | A sequence of entries is determined by its text |
| `ClassifierPreimage.EntriesDetermineLists` | internal/db/classifier_hash.go:31-49 | With distinct tags, the entries determine each list up to order |
| `ClassifierPreimage.PreimageIsUniquelyDecodable` | internal/db/classifier_hash.go:31-49 | Two configurations have equal preimages exactly if each of the six lists agrees as a multiset |
| `ClassifierPreimage.WriteSorted` | internal/db/classifier_hash.go:42-49 | The loop over the sorted copy appends the entries of one list |
| `ClassifierPreimage.WriteClassifier` | internal/db/classifier_hash.go:31-40 | What is written to the hash is the preimage |
| `Automation.EqualPreimagesClassifyAlike` | internal/db/automated.go:147-178 | Equal preimages mean equal verdicts on every message |
| `Automation.NormalizedIsExact` | internal/db/automated.go:122-143 | A normalized list holds, once each, the trimmed patterns that are not empty, not too long and not built in |
| `Automation.NormalizationKeepsTheVerdict` | internal/db/automated.go:122-178 | Dropping repeats and built-in patterns never changes a verdict |
| `Automation.ConfiguredPreimages` | internal/db/automated.go:80-143 | Two user configurations have equal preimages exactly if they offer the same patterns beyond the built-in ones: order, repeats, padding and overlap do not matter |
| `Automation.NormalizedTwice` | internal/db/automated.go:62-70 | Setting the normalized lists again changes nothing |
| `Automation.Matchers.NormalizeUserPatterns` | internal/db/automated.go:122-143 | The loop with its seen set computes the normalized list |
| `Automation.Matchers.SetUserAutomationMatchers` | internal/db/automated.go:80-90 | All three user lists are replaced at once |
| `Automation.Matchers.IsAutomatedSession` | internal/db/automated.go:147-178 | A session is automated exactly if its first message matches a prefix, a substring, or, trimmed, an exact pattern |
| `TerminalSanitize.DecodeInvertsEncode` | cmd/agentsview/terminal_sanitize.go:34-40 | Every encoding of RFC 3629, section 3, decodes to its character |
| `TerminalSanitize.DecodedIsEncoded` | cmd/agentsview/terminal_sanitize.go:34-40 | Only such encodings decode |
| `TerminalSanitize.BadByteStartsNoRune` | cmd/agentsview/terminal_sanitize.go:34-40 | A byte is dropped as invalid exactly if no encoding starts there |
| `TerminalSanitize.SanitizedRunes` | cmd/agentsview/terminal_sanitize.go:28-54 | On every byte string the output holds exactly the preserved characters of the input, in order |
| `TerminalSanitize.SanitizedHasNoControls` | cmd/agentsview/terminal_sanitize.go:41-50 | The output holds no C0 control but newline and tab, no DEL and no C1 control |
| `TerminalSanitize.SanitizeTwice` | cmd/agentsview/terminal_sanitize.go:28-54 | Sanitizing is idempotent |
| `TerminalSanitize.ShortcutAgreesIffOutputValid` | cmd/agentsview/terminal_sanitize.go:28-71 | The shortcut returns what the full loop would, and the output is valid UTF-8, exactly if the input is valid or holds a control byte |
| `TerminalSanitize.InvalidByteSurvives` | cmd/agentsview/terminal_sanitize.go:28-40 | A lone byte 0xFF passes through the shortcut |
| `TerminalSanitize.FilteredIsEncoded` | cmd/agentsview/terminal_sanitize.go:32-54 | The full loop encodes the preserved characters |
| `TerminalSanitize.HasControlBytes` | cmd/agentsview/terminal_sanitize.go:60-71 | The byte scan finds a control byte exactly if there is one |
| `TerminalSanitize.SanitizeTerminal` | cmd/agentsview/terminal_sanitize.go:28-54 | Shortcut and loop compute the sanitized string |
| `TranscriptEquality.ToolCallEqual` | internal/db/messages_diff.go:68-111 | Two tool calls compare equal exactly if a reader sees the same, result events normalized from their own call |
| `TranscriptEquality.MessageEqual` | internal/db/messages_diff.go:41-66 | Two messages compare equal exactly if a reader sees the same |
| `TranscriptEquality.TranscriptMessagesEqual` | internal/db/messages_diff.go:11-39 | The two passes over maps report equality exactly if both sides have unique ordinals and the same visible message at each |
| `TranscriptEquality.SameIffPermutationOfViews` | internal/db/messages_diff.go:3-39 | That is so exactly if ordinals are unique and the visible messages are a permutation of each other |
| `TranscriptEquality.OrderDoesNotMatter` | internal/db/messages_diff.go:3-39 | Reordering either transcript changes nothing |
| `TranscriptEquality.ComparisonLaws` | internal/db/messages_diff.go:3-39 | The comparison is symmetric and transitive, and reflexive exactly on transcripts with unique ordinals |
| `Activity.SnapInterval` | internal/db/activity.go:38-65 | The loop over the steps and the scaled fallback compute the width, with 64-bit wrap-around |
| `Activity.NearestIsClosest` | internal/db/activity.go:47-57 | The step chosen is closest to a thirtieth of the duration, the larger of two |
| `Activity.SnapBoundsBuckets` | internal/db/activity.go:38-65 | The width is positive and gives at most 50 buckets exactly for durations up to 48 short of the largest 64-bit number |
| `Activity.IndexMeans` | internal/db/activity.go:129-146 | A row falls into the bucket whose interval holds it; one less than a width before the anchor falls into the first |
| `Activity.ChartedRowsHaveBuckets` | internal/db/activity.go:126-205 | Every visible row with a time falls into one of the buckets |
| `Activity.BucketsAreBounded` | internal/db/activity.go:126-180 | There are at least one and at most 51 buckets, and more than 50 exactly if the latest row lies 50 widths past the anchor |
| `Activity.TightDurations` | internal/db/activity.go:38-65 | Only the durations of 5999 and 359999 seconds are one short of 50 of the widths chosen for them |
| `Activity.FiftyOneBucketsIff` | internal/db/activity.go:36-42 | There are 51 buckets exactly if the duration is 5999 or 359999 seconds and the latest row lies at least that and a second past the truncated earliest time |
| `Activity.FiftyOneBuckets` | internal/db/activity.go:36-42 | Two rows with 51 buckets |
| `Activity.BucketsHoldTheirRows` | internal/db/activity.go:126-200 | Every row lies between the start and end shown for its bucket exactly if the earliest time is not negative or a whole second |
| `Activity.TalliesAddUp` | internal/db/activity.go:126-205 | The counts of a role over all buckets add up to the charted rows of that role |
| `Activity.FirstOrdinalIsLeast` | internal/db/activity.go:134-146 | The first ordinal of a bucket is the least in it, and absent exactly if it is empty |
| `Activity.GetSessionActivity` | internal/db/activity.go:88-205 | The response has the width and one bucket per index up to the latest row, gaps included, each with its own counts |
| `SummaryAgreement.FoldMedian` | internal/db/analytics.go:1149-1155 | The median of the fold is the truncated average the ranked query takes |
| `SummaryAgreement.FoldP90` | internal/db/analytics.go:1156-1160 | The 90th percentile of the fold is the row the ranked query picks |
| `SummaryAgreement.RankingsAgree` | internal/db/analytics.go:862-920 | However each side orders equal counts, median and 90th percentile agree |
| `SummaryAgreement.FoldMostActive` | internal/db/analytics.go:1162-1169 | The loop over the project map computes the leader of that order |
| `SummaryAgreement.OrderDoesNotMatter` | internal/db/analytics.go:1162-1169 | The leader is the same for every order of the map |
| `SummaryAgreement.SummariesAgree` | internal/db/analytics.go:862-920 | Query and fold agree on the most active project exactly if some session has a message or one has no project name |
| `SummaryAgreement.EmptySessionDisagrees` | internal/db/analytics.go:1162-1169 | A session without messages: the query names its project, the fold none |
| `Grouping.GroupsAddUp` | internal/db/analytics.go:2547-2636 | If every row that weighs anything is in one of the groups, the groups add up to the total |
| `Grouping.GroupsHoldAll` | internal/db/analytics.go:3384-3414 | If every row with a list is in one of the groups, the groups hold together what all rows hold |
| `Grouping.SumAtPermutation` | internal/db/analytics.go:2547-2636 | The sum of a group does not depend on the order of the rows |
| `Grouping.ConcatAtPermutation` | internal/db/analytics.go:3384-3414 | What the lists of a group hold does not depend on the order of the rows |
| `SkillAnalytics.AfterIsStrictWeakOrder` | internal/db/analytics.go:2639-2652 | Being after, by instant, by parsing or by text, is a strict weak order |
| `SkillAnalytics.TiesAreInstants` | internal/db/analytics.go:2639-2652 | Timestamps neither of which is after the other are the same text or the same instant |
| `SkillAnalytics.RowTouchesOnlyItsOwn` | internal/db/analytics.go:2559-2594 | One row adds its count to the total, to the calls of its own skill and to its own trend entry, and touches no other skill or bucket; no latest use ever goes back |
| `SkillAnalytics.BuildSkills` | internal/db/analytics.go:2559-2594 | The loop over the rows computes the fold: calls, sessions, agents, projects and latest use of each skill, the trend and the total |
| `SkillAnalytics.SessionsAreExact` | internal/db/analytics.go:2559-2594 | The sessions of a skill are exactly those named by the rows that use it |
| `SkillAnalytics.SkillCallsAddUp` | internal/db/analytics.go:2559-2594 | The calls of all skills, in whatever order the map is visited, add up to the total |
| `SkillAnalytics.TrendAddsUp` | internal/db/analytics.go:2559-2594 | The trend buckets add up to the calls of the rows with a date |
| `SkillAnalytics.CountsIgnoreOrder` | internal/db/analytics.go:2559-2594 | Calls per skill, agent, project and trend bucket, and the sessions of a skill, do not depend on the order of the rows |
| `SkillAnalytics.LastUsedIsMaximal` | internal/db/analytics.go:2584-2586 | No use of a skill is after the latest one shown, which is that of a row |
| `SkillAnalytics.LatestAreTiedWithShown` | internal/db/analytics.go:2584-2586 | The latest use shown is written as some use after which there is no other, and those uses are exactly the ones it is not after |
| `SkillAnalytics.LastUsedIgnoresOrderIff` | internal/db/analytics.go:2584-2586 | The latest use shown is the same for every order of the rows exactly if any two uses of the skill after neither of which there is another are written the same |
| `SkillAnalytics.OffsetsMakeOrderMatter` | internal/db/analytics.go:2639-2652 | Two uses at one instant written with different offsets: the first row decides |
| `SignalAnalytics.AggregateSignals` | internal/db/analytics.go:3930-4037 | The distributions of grades, outcomes and confidences, and the maps by agent, project and date, hold for every value and every group with a row the counts and sums over its rows, errored and abandoned sessions by date included; the tool and context health figures and the score sum are sums over all rows; scored and unscored sessions add up to the rows |
| `SignalAnalytics.Tally` | internal/db/analytics.go:3980-4025 | One row updates one group, which it creates if needed |
| `SignalAnalytics.DistributionsConserve` | internal/db/analytics.go:3930-3978 | A distribution adds up to the number of rows that have a value |
| `SignalAnalytics.GroupsConserve` | internal/db/analytics.go:3891-4037 | In each grouping, every figure adds up to that of all rows, and the counts to the number of rows |
| `SignalAnalytics.GroupsIgnoreOrder` | internal/db/analytics.go:3891-4037 | The figures of a group do not depend on the order of the rows |
| `SignalAnalytics.SignalsIgnoreOrder` | internal/db/analytics.go:3891-4037 | The whole aggregation is the same for every order of the rows |
| `SignalAnalytics.DistributionsIgnoreOrder` | internal/db/analytics.go:3930-3978 | A distribution is the same for every order of the rows |
| `SignalAnalytics.HealthIsBounded` | internal/db/analytics.go:3955-3978 | Failing, compacted, measured and pressed sessions never outnumber what they are compared with, so no rate exceeds one |
| `VelocityAnalytics.Walk` | internal/db/analytics.go:3367-3432 | The loops over neighbouring messages compute the turn cycles and the active time, gaps capped at five minutes |
| `VelocityAnalytics.FirstResponseIsExact` | internal/db/analytics.go:3384-3414 | A first response is recorded exactly if a timed assistant message follows the first timed user message, and is the time between that message and the first of them, zero if clocks are skewed |
| `VelocityAnalytics.FirstResponse` | internal/db/analytics.go:3384-3414 | The two scans compute it |
| `VelocityAnalytics.ActiveTimeIsBounded` | internal/db/analytics.go:3416-3432 | Active time is at most five minutes for each message after the first |
| `VelocityAnalytics.TurnCyclesAreBounded` | internal/db/analytics.go:3367-3382 | Turn cycles are positive, at most half an hour, and fewer than the messages |
| `VelocityAnalytics.Measure` | internal/db/analytics.go:3329-3440 | A session adds to throughput only if it has active time |
| `VelocityAnalytics.Velocity` | internal/db/analytics.go:3634-3662 | The overall accumulator holds the turn cycles, first responses and speed samples of all measured sessions and the sums over them; those by agent and by complexity hold them for their groups; sessions of fewer than two messages are left out |
| `VelocityAnalytics.GroupsAddUpToOverall` | internal/db/analytics.go:3634-3662 | The accumulators by agent, and those by complexity, hold together exactly the overall turn cycles, first responses and speed samples, and add up to the overall sums |
| `VelocityAnalytics.TotalsIgnoreOrder` | internal/db/analytics.go:3634-3662 | Neither the overall accumulator nor that of a group depends on the order of the sessions, but for the order of its lists |
| `SpeedBursts.BurstsAreExact` | internal/db/speed.go:137-181 | The generation events are exactly the longest stretches in which each row extends the event of the row before it |
| `SpeedBursts.BurstsAreInOrder` | internal/db/speed.go:137-181 | The events come in conversation order and do not overlap |
| `SpeedBursts.EachOutputIsInOneBurst` | internal/db/speed.go:137-181 | Every timed assistant row is in exactly one event, and no other row is in one |
| `SpeedBursts.InOneBurstIff` | internal/db/speed.go:126-136 | Two rows of output are in one event exactly if every row after the first, up to the second, extends the event before it |
| `SpeedBursts.NeighbouringFragmentsMerge` | internal/db/speed.go:126-136 | Neighbouring rows of one request are in one event, however far apart in time |
| `SpeedBursts.SharedRequestSplits` | internal/db/speed.go:36-41 | Rows of one request with a row of another between them, seconds apart, are not merged |
| `SpeedBursts.TokensAreConserved` | internal/db/speed.go:137-181 | The tokens of the events add up to those of all rows of output |
| `SpeedBursts.LatestIsMaximal` | internal/db/speed.go:173-176 | The end of an event is the latest time of its rows |
| `SpeedBursts.SamplesAreExact` | internal/db/speed.go:183-199 | The samples are exactly those of the events with a time before them, at least 32 tokens and a positive window of at most half an hour |
| `SpeedBursts.SpeedEventsFromMessages` | internal/db/speed.go:137-203 | The loops compute the samples of the events in order |

## Left out

- SQL text and drivers: a query is its result, with rows as the statement promises them.
- SHA-256: the facts are about the preimage, not about collisions of the hash.
- Concentration, averages, rates and percent fields: they are rounded floating-point numbers; a speed is kept as its tokens and its window, and the sum of context pressures is left out. The product with 0.9 is one given function that both sides use.
- Time zones, date buckets and the parsing of times: localized times and seconds are given.
- Floating-point rounding of `julianday`: times are exact reals between the years -4713 and 9999, where seconds do not overflow 64 bits.
- `IsLocalDaemonActive` as one answer: it reads records first and the lock second, and no atomic answer is claimed; it enters `WriteOwnership` as an arbitrary one.
- Liveness probes: a pid is alive or not, with the process behind it identified by its birth.
- Nil workers, nil controllers, nil status stores and the test clock: configuration of the same code.
- `configureDBFromConfig`, `db.Close` and unlock errors: which error it is; a step succeeds or fails, and a close that reports an error has closed the archive.
- HTTP, MCP, command-line handling, configuration files, pricing, telemetry, service managers, the desktop application and the frontend.
- `BackupCycle.SnapshotIsMirror`: sources are maps from paths to files; directory symlinks and file modes are not modelled, and ignore files or git repositories inside a source enter only through git's own decision which paths it ignores.
- `BackupCycle.PushesOnlyToTheRepo`: an origin rewritten after it was verified and before the push is not considered, since the code has no check in between; URL rewriting rules of the git configuration are not modelled, and a second URL of the origin counts as a push URL; a push that exits non-zero is taken to have changed nothing.
- `BackupRemote.OwnURLMatches`: names and URLs are ASCII, so lower case and white space are those of ASCII.
- `BackupRemote.AcceptedIsGitHubIff`: case, outer white space and one .git suffix of a URL are taken not to matter to GitHub; other schemes, ports and repeated separators are not counted as its URLs.
- `ConsolidateCycle.CycleMovesDecided`: the script is taken not to touch the raw directory, and an unreadable file is one that does not parse.
- `ConsolidateCycle.Worker.RunOnce`: recall, prompts, audit text, the merged result rows and the resync are reduced to whether a note changed, the commit and the resync succeeded.
- `Automation.Matchers.SetUserAutomationMatchers`: trimming is an arbitrary function, and the read-write lock is one atomic step.
- `Activity.GetSessionActivity`: the prefix filter for injected messages is part of a row's visibility.
- `SummaryAgreement.FoldMostActive`: the order in which a map is visited is a parameter.
