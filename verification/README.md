# Mini-Drop, verified

Mini-Drop is a profiling platform: an API server (Go) creates tasks, `drop_server` (C++) queues and
dispatches them to agents (C++), results come back and are analysed (Python, Go), and a web client
(TypeScript) draws flame graphs. This project models the parts of it that hold state or arithmetic
and proves what they are relied on for, over every input and every run.

Check everything with `dafny verify dfyconfig.toml`.

## What is here

* **Dispatch protocol.** `DispatchServer` gives the server's locked operations as functions on its
  state, `DispatchService` the mutable object whose methods are proved to perform them, `AgentWorker`
  the agent's queue and the results it builds. `DispatchSystem` puts the server and any number of
  agents into one state machine in which heartbeat replies are lost or delivered, agents crash,
  cancel or abandon work, and cleanup runs at any time. `DispatchSafety` proves an invariant of every
  run, `DispatchTheorems` what follows from it, `WindowHistory` what window tasks ask for and what window
  records say, and `DispatchRepeats` lets reports arrive again and says
  which of them break the order. `WindowId` is the codec for window ids.
* **Task lifecycle.** `TaskDb` has every write to the status columns and the history table, `Poller`
  one turn of the polling loop, `ApiServer` the mutable object, `StatusInfo` the artefact key inside
  `status_info`, `ArtefactKey` what analysis does to it, `WindowSync` the sync of continuous windows.
  `PollerProtocol` runs the poller against the whole dispatch system, with the two reads of `FetchData` as
  two separate steps; `PollerOutcome` says what a finished poll leaves behind, `CollectorKeys` what that is
  when the results come from the agent's worker, `ArtefactNames` that the analyser looks for what the worker
  stores. `WindowSyncProtocol` runs the sync against the whole
  dispatch system.
* **Flame graphs.** `StackSums` defines the sums a flame graph shows, `FlameTree` linked nodes with a
  ghost map from call paths to nodes, `DiffTree` building by path-string index, `DiffTotals` and
  `DiffPrune` the two recursive passes, `DiffGraph` the whole construction from two folded texts,
  `TrieTwin` the web client's trie, and `TwinAgreement` when both are the same graph. `FoldedStacks` and
  `FoldedRoundTrip` cover printing and parsing of folded stacks in Python and Go, and `DiffPipeline` goes
  from two dictionaries through their printed text to the graph.
* **Heap dumps.** `HprofFormat` describes and encodes files of the HPROF binary format ("JAVA PROFILE
  1.0.1") in its own terms, with named Java types and kinds of roots; `HprofDecode` has the parser's tables of
  sizes and tags and what the parser makes of any byte string, `HprofRoundTrip` that it undoes the encoding, `HprofParser` the parser object, `HeapStats` totals and top lists.
* **Statistics.** `Gini`, `TopN`, and `Sorting`, the stable insertion sort they and `HeapStats` share.

## Assumptions, and what happens without them

`DispatchSystem.Enabled` states what the C++ code takes for granted: task ids are new, only
`drop_server` makes ids of window shape, a parent id is not in use (`StartContinuousTask` derives it
from a clock modulo one million), window numbers stay below 2^31 - 1, and an agent reports on a task
it holds, in order and at most once. The code does not check any of these. In particular the agent
sends a report again when the reply to it is lost (drop/agent/HotmethodChannel.cpp:72-110).
`DispatchRepeats` adds such repeats to the state machine: any result of a task already reported on, and
any status of a dispatched task, may arrive again at any time. The order of dispatch and execution and
"PENDING exactly while queued" hold throughout such a run if and only if no result queues a window that
was handed out before and no repeated status is PENDING (`OnlyHarmfulActsBreak`). The numbering of
windows, finished tasks and the shown status each have their own exact condition on what arrives
(`NumberingKeptExactly`, `LateReportKeepsFinished`, `LateReportLowersExactly`). The other theorems
of runs (`WindowsAreConsecutive`, `OverdueNeverRuns`, those about the poller and the window sync)
are about runs in which each report arrives once.

Clocks, storage, profiler outcomes and network replies are parameters. The database is a map of rows
and a list of history records whose writes succeed.

Properties that are false of the code are stated with the exact condition under which they hold, and
with an input on which they fail:

* The retry of a window's result can queue the next window a second time (`RetryQueuesTwice`, in a state
  reached by `RetryReachable`); `RepeatedResultExactly` and `OnlyHarmfulActsBreak` say exactly when it does.
* Window numbering survives results that arrive repeatedly or out of order only as far as
  `NumberingKeptExactly` says (`RepeatBreaksNumbering`), finished tasks stay finished only as
  `LateReportKeepsFinished` says, and a shown status rises only as `LateReportLowersExactly` says.
* Two different call paths can share a path string when a stack starts with an empty frame
  (`EmptyFirstFrameClashes`); the tree built with the index has exactly the right nodes if and only if
  no two call paths of the input do (`BuildTree`), and only then agrees with the client's (`DrawBoth`).
* A folded-stack file is not always read back (`PyRoundTrip`, `GoRoundTrip`, failing in
  `LeadingSpaceIsLost`), and the two parsers agree only without repeated stacks (`ParsersAgreeExactly`,
  failing in `RepeatedStackDiffers`).
* The reported heap totals miss instances whose class is introduced only later (`TotalsExact`, failing
  in `TotalsMissLateClass`).
* The artefact key can be read off a successful row if and only if the poll ended at a first read,
  the key is clean, and no crash found the analysis still open (`KeyReadableAfterAnalysis`). The keys
  the agent's worker makes for plain task ids are always clean (`CollectorKeyReadable`). `LateResultLosesKey`
  is an interleaving that loses one.
* A note that an analysis leaves on a window's child task is shown (`AnalysisNoteShown`) only until the next
  sync of the windows, which overwrites it (`ChildBroughtUp`).

The comment at apiserver/server/flame.go:535 says pruning keeps subtrees with a change, while the code
tests totals after pruning below; `HasNonZeroDelta` proves that this is the same thing. The HPROF
table of top sizes is drawn from the top classes by count, not from all classes
(analysis/java_heap_analyzer/parser.go:536-545), and is modelled so.

## Model

| member | source | states |
|---|---|---|
| `WindowId.ServerRoundTrip` | drop/server/HotmethodService.cpp:318-343 | cutting a window id at its last "_w" recovers the parent, and the number as long as it fits 32 bits |
| `WindowId.StoiReads` | drop/server/HotmethodService.cpp:324 | `stoi` reads a number behind blanks and a sign and before anything else, and throws if there is no digit or it does not fit 32 bits |
| `WindowId.MakeInjective` | drop/server/HotmethodService.cpp:343 | different windows never share an id |
| `WindowId.PatternGroupCorrect` | apiserver/server/flame.go:92 | the pattern matches with at most one parent, the text before the last "_w" |
| `WindowId.ApiServerRoundTrip` | apiserver/server/flame.go:92-101 | the API server reads the same parent off every window id, unless the parent has a line break |
| `DispatchService.HotmethodService.PushTask` | drop/server/HotmethodService.cpp:76-90 | full queue: refused and nothing changes; else appended for that agent and marked PENDING |
| `DispatchServer.HundredWait` | drop/server/HotmethodService.h:18 | the server refuses a task, and the agent drops one, exactly when a hundred are waiting |
| `DispatchService.HotmethodService.PopTask` | drop/server/HotmethodService.cpp:92-108 | takes the front of that agent's queue, drops an emptied queue, marks the task DISPATCHED |
| `DispatchService.HotmethodService.NotifyResult` | drop/server/HotmethodService.cpp:299-368 | stores the result and status; for a window of a known parent appends its record and, while the parent runs, queues the next one; `DispatchTheorems.NotifyRecords` says what the record is and `DispatchTheorems.EveryStatusExplained` what the status is |
| `DispatchService.HotmethodService.ReportStatus` | drop/server/HotmethodService.cpp:370-390 | overwrites the status, whatever it was, with the one that has this wire code (`DispatchServer.CodesAreWireCodes`) |
| `DispatchServer.CodesAreWireCodes` | drop/server/HotmethodService.cpp:377-386 | the wire codes are 0 to 6, one for each status, in order; a code and its status determine each other, and any other code means RUNNING |
| `DispatchServer.ShownCodes` | drop/server/ControlService.cpp:9-18 | a poller is shown 0 for pending or dispatched, 2 running, 3 uploading, 4 done, 5 failed or timed out, and no other code |
| `DispatchService.EraseById` | drop/server/HotmethodService.cpp:415-422 | erasing while iterating leaves exactly the other tasks, in order |
| `DispatchService.HotmethodService.CleanupTimeoutTasks` | drop/server/HotmethodService.cpp:392-452 | performs both loops, in any order; `DispatchServer.CleanupByTheClock` says by the clock which tasks are failed, dequeued and forgotten |
| `DispatchServer.CleanupByTheClock` | drop/server/HotmethodService.cpp:392-452 | in nanoseconds: a PENDING or DISPATCHED task is failed, with the reason for its status, and is in no queue, if and only if its age reached (timeoutSec + 1) * 1000000000; a finished task and its result are forgotten if and only if its age reached 3601 * 1000000000; nothing else changes |
| `DispatchServer.CleanupSettlesStates` | drop/server/HotmethodService.cpp:392-452 | afterwards no PENDING or DISPATCHED task is `timeoutSec` + 1 seconds old, and no finished one 3601 seconds |
| `DispatchServer.WithoutMembers` | drop/server/HotmethodService.cpp:413-430 | exactly the tasks not timed out stay queued |
| `DispatchService.HotmethodService.StartContinuousTask` | drop/server/HotmethodService.cpp:456-507 | registers the parent and queues window 0; a full queue fails the call but leaves the parent registered |
| `DispatchServer.ParentIds` | drop/server/HotmethodService.cpp:464-466 | two parents get the same id if and only if their clock readings agree modulo one million, and no parent's id is taken for a window's |
| `DispatchService.HotmethodService.StopContinuousTask` | drop/server/HotmethodService.cpp:509-518 | marks a known parent as not running |
| `DispatchSystem.NextRunsTheServer` | drop/server/HealthCheckService.cpp:14-39 | every step of the state machine changes the server exactly as one of its operations; the agent's reports are wire codes 2 and 3 |
| `DispatchSystem.NextRunsTheChannel` | drop/agent/HotmethodChannel.cpp:62-70 | every step of the state machine changes an agent's queue exactly as its channel does: a delivered task is offered, the worker and a shutdown take the front, a crash empties it, nothing else touches it |
| `DispatchSafety.NextKeepsInv` | drop/server/HotmethodService.cpp:76-518 | every step of server, agents and network keeps the invariant |
| `DispatchSafety.RunKeepsInv` | drop/server/HotmethodService.h:18-130 | the invariant holds in every state of every run |
| `DispatchTheorems.DispatchedInOrderOnce` | drop/server/HealthCheckService.cpp:28-36 | over every run in which each report arrives once, a task goes out at most once, only to the agent it was accepted for, in acceptance order per agent; `DispatchRepeats.OnlyHarmfulActsBreak` has the exact condition for repeated reports |
| `DispatchTheorems.ExecutedInOrderOnce` | drop/agent/HotmethodChannel.cpp:136-145 | over every such run a task is executed at most once, by the agent it was dispatched to, in acceptance order; for repeated reports the same exact condition |
| `DispatchTheorems.OverdueNeverRuns` | drop/server/HotmethodService.cpp:392-435 | a task that was PENDING for (timeoutSec + 1) seconds when cleanup ran is never afterwards queued, dispatched, held or executed |
| `DispatchTheorems.QueuedExactlyWhenPending` | drop/server/HotmethodService.cpp:76-108 | in every state of such a run a task is in some queue exactly when PENDING, queues hold 1 to 100 tasks, every cached result has a status; for repeated reports the same exact condition |
| `DispatchTheorems.UnfinishedStatusNeverFalls` | drop/server/ControlService.cpp:9-18 | in such a run two unfinished statuses shown at different times never go down; `DispatchTheorems.LateReportLowersExactly` has the exact condition for other reports |
| `DispatchTheorems.WindowsAreConsecutive` | drop/server/HotmethodService.cpp:318-365 | a parent's records are windows 0, 1, ..., n-1 in order, and an outstanding window is number n |
| `DispatchTheorems.AtMostOneWindowAfterStop` | drop/server/HotmethodService.cpp:509-518 | after a stop at most one more window is ever recorded |
| `DispatchTheorems.NotifyKeepsNumberingExactly` | drop/server/HotmethodService.cpp:299-368 | a result keeps a parent's records numbered if and only if it is for another parent or for the parent's next window |
| `DispatchTheorems.NumberingKeptExactly` | drop/agent/HotmethodChannel.cpp:72-89 | for any sequence of results, repeated, late or of several parents mixed: the records stay numbered if and only if the parent's windows among them are the next ones in order, each once |
| `DispatchTheorems.LateReportKeepsFinished` | drop/server/HotmethodService.cpp:212-217 | a finished task is reopened exactly by a late status that is not final, or by a result of the window before it while its parent runs and the queue has room |
| `DispatchTheorems.LateReportLowersExactly` | drop/server/HotmethodService.cpp:370-390 | whatever report arrives, the unfinished status shown for a task falls exactly by a status with a lower public code, or by a result of the window before it that queues the task again after it had started |
| `DispatchTheorems.RepeatBreaksNumbering` | drop/server/HotmethodService.cpp:318-343 | a server whose numbered records the repeated result of window 0 leaves unnumbered |
| `DispatchTheorems.DoneIsCached` | drop/server/HotmethodService.cpp:299-316 | in every reachable state a DONE task has the fixed reason and its error-free result is cached |
| `DispatchTheorems.EveryStatusExplained` | drop/server/HotmethodService.cpp:299-316 | over every run the reason shown with a status is the one for what happened: created, dispatched to its own agent, done, overdue, or failed with the error of its cached result; TIMEOUT is never shown |
| `DispatchTheorems.NotifyRecords` | drop/server/HotmethodService.cpp:318-336 | a window's result appends one record: status 1 if and only if there was no error, else 2, its key, ending when it arrived, starting a window's length before |
| `WindowHistory.ConfiguredAsRequested` | drop/server/HotmethodService.cpp:456-479 | over every run a parent's configuration is what one call of `StartContinuousTask` asked for, five minutes if it named no length |
| `WindowHistory.WindowTasksAsRequested` | drop/server/HotmethodService.cpp:345-357 | over every run a window task, in a queue, on its way or at the agent, is at the agent that call named and asks for its process, rate, profiler, call graph and event, one window's length, and a minute more to finish |
| `WindowHistory.RecordsTellResults` | drop/server/HotmethodService.cpp:318-337 | over every run a parent's records are exactly the results reported for its windows, in order: status 1 if and only if the result had no error, its key and its times |
| `DispatchRepeats.RepeatRunsTheServer` | drop/server/HotmethodService.cpp:299-368 | a repeated result changes the server as any result does |
| `DispatchRepeats.DeliverExactly` | drop/server/HotmethodService.cpp:299-368 | any result of a dispatched task keeps order of dispatch, order of execution and PENDING exactly while queued, and every task at one place, if and only if it does not queue a window that was handed out before |
| `DispatchRepeats.ActExactly` | drop/agent/HotmethodChannel.cpp:72-110 | the same equivalence for every step of the system and every repeated result or status |
| `DispatchRepeats.OnlyHarmfulActsBreak` | drop/agent/HotmethodChannel.cpp:72-110 | over every run in which results and statuses may arrive again: order and PENDING exactly while queued hold in all its states if and only if no result queues a window that was handed out before and no repeated status is PENDING |
| `DispatchRepeats.HarmlessRepeatsKeepOrder` | drop/server/HealthCheckService.cpp:28-36 | over every such run without a harmful act each task is dispatched and executed at most once, by its own agent, in acceptance order, and what is executed was dispatched |
| `DispatchRepeats.UndisturbedIsHarmless` | drop/server/HotmethodService.cpp:76-518 | where every report arrives once no step is harmful, so the condition is met by every run of the system without repeats |
| `DispatchRepeats.RepeatedResultExactly` | drop/agent/HotmethodChannel.cpp:72-89 | in every state reached without repeats, a repeated window result leaves every task at one place if and only if it does not queue the next window while that is queued or was dispatched |
| `DispatchRepeats.RetryQueuesTwice` | drop/agent/HotmethodChannel.cpp:72-89 | whenever a window of a running parent is reported and the queue has room for two more, the same report once more puts the next window at two places |
| `DispatchRepeats.RetryReachable` | drop/server/HotmethodService.cpp:456-507 | such a state is reached from the empty system in four steps: start, heartbeat, receive, begin |
| `AgentWorker.HotmethodChannel.PushTask` | drop/agent/HotmethodChannel.cpp:62-70 | a full queue drops the task, else it is appended |
| `AgentWorker.HotmethodChannel.TakeTask` | drop/agent/HotmethodChannel.cpp:136-150 | the worker takes the oldest task |
| `AgentWorker.BuildResult` | drop/agent/HotmethodChannel.cpp:213-289 | success exactly when the run succeeded and the artefact was uploaded or embedded; an error message is never mistaken for a status; an artefact is named after its task with one of the known extensions |
| `AgentWorker.CancelResult` | drop/agent/HotmethodChannel.cpp:37-55 | a queued task is reported as failed on shutdown |
| `AgentWorker.RemoteKeyIsClean` | drop/agent/HotmethodChannel.cpp:232-262 | for a task id without space, ';' and line breaks every key the worker can make is clean |
| `ArtefactNames.StoredIsLookedFor` | analysis/hotmethod_analyzer.py:208-222 | for every combination of task type and profiler the API server accepts (apiserver/server/task.go:69-82), the file the worker stores, post-processed or not, is one the analyser tries for that task type |
| `ArtefactNames.ExecuteAndFind` | drop/agent/HotmethodChannel.cpp:165-289 | from the outcome of an execution: an uploaded artefact of an accepted task is looked for by its analysis |
| `StatusInfo.ExtractsExactlyCleanKeys` | apiserver/server/task.go:1128-1142 | a stored key is read back if and only if it is trimmed, on one line, without ';' and without the marker |
| `StatusInfo.ExtractedIsClean` | apiserver/server/task.go:1128-1142 | whatever the column holds, only a clean key is ever read out of it |
| `StatusInfo.KeySurvivesNotes` | apiserver/server/task.go:1271-1293 | any number of merged marker-free notes leave the key in the column readable |
| `StatusInfo.NoteIsShown` | apiserver/server/task.go:1271-1282 | a merged text always ends in the note, and keeps what was there in front of it if that has a key and the note brings none |
| `StatusInfo.NotesSurvive` | apiserver/server/task.go:1271-1282 | behind a key every one of any number of marker-free notes can still be read |
| `ArtefactKey.CrashKeepsKeyExactly` | apiserver/server/analysis.go:90-97 | the fallback of a crashed analysis leaves a row's key readable if and only if the analysis had already ended |
| `ArtefactKey.KeyReadableUnlessCrash` | apiserver/server/task.go:1239-1293 | over any sequence of analysis writes with marker-free reasons a row's key stays readable if and only if no crash finds the analysis still open |
| `ArtefactKey.StoredKeyReadable` | apiserver/server/task.go:965-979 | the same from the poller's success on: readable if and only if the stored key is clean and no crash finds the analysis still open |
| `TaskDb.ApplyAudited` | apiserver/server/task.go:1325-1361 | no write breaks the audit trail of any task |
| `TaskDb.AuditTrail` | apiserver/server/task.go:127-200 | after any sequence of writes, whether the row was created by a request, a retry, a schedule, a continuous task or a window sync, the history of each task is a chain from -1 without self-loops that ends at the stored status, which is never 1 or 6 |
| `TaskDb.AnalysisTrail` | apiserver/server/task.go:1239-1269 | after any sequence of writes the recorded analysis changes of each task are a chain from 0 without self-loops that ends at the stored analysis status |
| `TaskDb.AnalysisNoteShown` | apiserver/server/task.go:1239-1293 | an analysis write stores the status, and its note at the end of the column whether or not the status moves; without both it writes nothing |
| `TaskDb.CrashFails` | apiserver/server/analysis.go:90-107 | the fallback of a crashed analysis stores status 3 and its reason and records the edge, unless the status is 2 or 3 already |
| `TaskDb.RejectedTask` | apiserver/server/task.go:144-200 | a task that drop_server refuses has exactly the edges -1 to 0 and 0 to 5 and is stored failed with the reason |
| `TaskDb.StoppedTask` | apiserver/server/task.go:1875-1890 | a continuous task that is stopped has exactly the edges -1 to 2 and 2 to 4, from its start to its stop |
| `ApiServer.Server.TransitionTaskStatus` | apiserver/server/task.go:1325-1361 | the row and its history change as one audited transition |
| `ApiServer.Server.SyncDropTaskStatus` | apiserver/server/task.go:1363-1376 | takes over a polled status, with an end time when it is final |
| `ApiServer.Server.EnsureTaskReached` | apiserver/server/task.go:1378-1389 | moves up to a state unless already there or past it |
| `ApiServer.Server.TransitionAnalysisStatus` | apiserver/server/task.go:1239-1269 | merges the note, and records a change of analysis status once |
| `ApiServer.Server.WaitTaskResult` | apiserver/server/task.go:925-1001 | the loop does what its turns do one after another, and stops at the first that returns |
| `ApiServer.Server.EnsureContinuousWindowTask` | apiserver/server/task.go:1727-1829 | creates the child of a completed window once, else brings it up to date; `WindowSync.ChildBroughtUp` says to what |
| `ApiServer.Server.SyncContinuousWindows` | apiserver/server/task.go:1650-1699 | the loop over the listed windows |
| `Poller.StatusMessageRoundTrip` | apiserver/server/task.go:1310-1323 | the poller reads back the status code and the reason, whatever the reason contains |
| `Poller.ExitLeavesFinished` | apiserver/server/task.go:925-1001 | however the loop returns, the row has a final status, and nothing is written afterwards |
| `Poller.ResultSuccessIsRecorded` | apiserver/server/task.go:965-979 | success of the result branch is an edge from UPLOADING and stores the key |
| `PollerProtocol.PollRunKeepsInv` | drop/server/ControlService.cpp:54-87 | server, agents and poller composed: the joint invariant holds throughout every run |
| `PollerProtocol.ShownAsNormalized` | apiserver/server/task.go:1299-1308 | the API server normalises every drop_server status to the code drop_server shows for it |
| `PollerProtocol.CreatedTaskBegins` | apiserver/server/task.go:109-208 | storing the row and handing the task to drop_server is a state in which such a run begins |
| `PollerProtocol.PolledStatusesRise` | apiserver/server/task.go:937-963 | the statuses polled before the last never fall, and the row is final exactly when the poller has returned |
| `PollerProtocol.StoredStatusRises` | apiserver/server/task.go:1299-1387 | over every run the stored status moves New, Running, Uploading, final, and never back |
| `PollerOutcome.RecordedEdgesRise` | apiserver/server/task.go:1325-1387 | over every run, every record the poller adds is an edge of its own task to a strictly higher status |
| `PollerOutcome.TimesFollowStatus` | apiserver/server/task.go:1325-1376 | over every run on a new row: it has an end time if and only if it is final, and a begin time if and only if the run recorded an edge to RUNNING |
| `PollerOutcome.EndsWhenPolled` | apiserver/server/task.go:937-990 | the end time is the time of the turn that ended the poll |
| `PollerProtocol.FirstReadOfFailure` | drop/server/ControlService.cpp:62-75 | a failed run found by the first read fails the task with its error |
| `PollerProtocol.FirstReadStoresKey` | apiserver/server/task.go:965-1026 | an error-free run found by the first read succeeds if and only if there is a key to store under, through an UPLOADING edge naming it, readable exactly when it is clean; else the task fails |
| `PollerProtocol.FailureTellsCause` | apiserver/server/task.go:1003-1026 | an artefact that cannot be stored fails the task at once, with the cause in the row |
| `PollerProtocol.GivenUpTellsCause` | apiserver/server/task.go:937-952 | a cancelled poll and one past its deadline fail the task at once, with the cause in the row |
| `PollerProtocol.LateResultLosesKey` | drop/server/ControlService.cpp:64-78 | an interleaving that does lose the key: the result lands between the two reads |
| `PollerOutcome.KeyReadableExactly` | drop/server/ControlService.cpp:54-87 | over every run that ended in success the result was cached when the poll ended, and its key is readable if and only if the poll ended at a first read and the key is clean |
| `PollerOutcome.KeyReadableAfterAnalysis` | apiserver/server/analysis.go:58-107 | the same after any analysis writes: readable if and only if, besides, no crash found the analysis still open |
| `CollectorKeys.CollectorArtefact` | apiserver/server/task.go:1003-1026 | uploaded or embedded, the artefact of an error-free worker's result is stored under the key named after its task |
| `CollectorKeys.UnnamedArtefact` | apiserver/server/task.go:1015-1019 | an embedded file without a name is stored as the task's raw data |
| `CollectorKeys.CollectorKeyReadable` | apiserver/server/task.go:1128-1142 | over every run in which workers report, for a plain task id: the key named after the task is readable if and only if the poll ended at a first read and no crash found the analysis still open |
| `WindowSync.ExactlyOncePerWindow` | apiserver/server/task.go:1650-1699 | over any sequence of syncs of a growing list of distinct windows, mixed with analysis writes, each listed window has one row, one creation record and one child task, successful if the window was done and failed if it failed, from the window's start to its end, and its analysis starts at most once |
| `WindowSync.ListingsFollowed` | apiserver/server/task.go:1658-1698 | whatever a window is listed as, time after time: its row has the last status, key and end given, its child task the last status and end and the first start, and its analysis is started exactly as often as it became done with an artefact |
| `WindowSync.BegunNotStarted` | apiserver/server/task.go:1831-1834 | once an analysis has begun, the sync starts none |
| `WindowSync.ChildBroughtUp` | apiserver/server/task.go:1735-1829 | the child of a completed window gets status 4 or 5 and its end, keeps its analysis status and a begin time it has, and its note is overwritten |
| `WindowSyncProtocol.NextKeepsCompleted` | drop/server/HotmethodService.cpp:318-343 | only completed windows are ever recorded |
| `WindowSyncProtocol.EveryWindowOnce` | apiserver/server/task.go:1643-1700 | over every run of server, agents, syncs of any parents and analysis writes, with nothing assumed of the lists: the windows listed at a parent's last sync have exactly that, and no other window of it has left a trace |
| `WindowSyncProtocol.WindowOutcome` | apiserver/server/task.go:1643-1700 | over every such run, from what the agents reported: the j-th result for a parent's windows is window j; once listed to a sync its child task is successful if and only if the result had no error, ends when it arrived, and its analysis is started, once, if and only if the result also named an artefact |
| `FlameTree.GrowShape` | apiserver/server/flame.go:457-464 | attaching a new leaf keeps a tree in which following frame names finds the node of a path |
| `DiffTree.Descend` | apiserver/server/flame.go:450-465 | looking a path string up, or adding a node under it, keeps the index equal to following frame names |
| `DiffTree.EmptyFirstFrameClashes` | apiserver/server/flame.go:450-455 | ";b" and "b" are different stacks with one path string |
| `DiffTree.BuildTree` | apiserver/server/flame.go:439-469 | the nodes are exactly the call paths of the stacks if and only if no two of them share a string; then each node holds the weight of its own stacks |
| `DiffTotals.ComputeTotalDelta` | apiserver/server/flame.go:526-533 | every node of the subtree gets the weight of all stacks through it, and nothing else changes |
| `DiffPrune.HasNonZeroDelta` | apiserver/server/flame.go:552-562 | true exactly when some stack through the node ends where weights do not cancel, pruned or not |
| `DiffPrune.PruneZeroDeltaNodes` | apiserver/server/flame.go:536-549 | every node below keeps exactly its live children, in order |
| `DiffPrune.PrunedShape` | apiserver/server/flame.go:474-475 | what is left is a tree of exactly the root and the live paths |
| `DiffPrune.KeptSum` | apiserver/server/flame.go:471-475 | in the sums: a kept node's total is still its own weight plus its kept children's totals, because what is removed adds nothing |
| `DiffGraph.CollectDeltas` | apiserver/server/flame.go:417-437 | whatever the iteration order, every stack of either profile is listed once with its change and base count |
| `DiffGraph.PrefixSumIsThrough` | apiserver/server/flame.go:417-437 | a prefix sum over the changes is the difference of the two profiles' weights through that path |
| `DiffGraph.NonEmptyFirstFrames` | apiserver/server/flame.go:443-463 | stacks that do not start with an empty frame are never ambiguous |
| `DiffGraph.BuildDiffTree` | apiserver/server/flame.go:406-478 | no tree exactly when both texts have no stack; the root's total is total2 - total1; in every node left, on ambiguous input too, the total is its own change plus the totals of its remaining children; on unambiguous input the nodes below the root are exactly the changed call paths with their total change, own change and own base count; a profile against itself leaves a bare root |
| `DiffGraph.NodesAddUp` | apiserver/server/flame.go:471-475 | summing and pruning leave every returned node's total equal to its own change plus its remaining children's totals |
| `DiffPipeline.DiffOfDictionaries` | apiserver/server/flame.go:60-71 | the graph of two printed dictionaries compares the dictionaries themselves if the server can read both: none if both are empty, total2 - total1 at the root, every change shown if unambiguous, bare for equal ones |
| `DiffPipeline.PrintedUnambiguous` | analysis/data_parser/collapsed_parser.py:95-102 | readable dictionaries are unambiguous unless a stack starts with an empty frame |
| `TrieTwin.FindChild` | web/src/components/FlameGraph.tsx:69-76 | searching the children by name finds the node of the longer path, or there is none |
| `TrieTwin.ParseCollapsedToTree` | web/src/components/FlameGraph.tsx:52-84 | none without an accepted line; else the trie of all accepted lines, every node holding the count of the lines that end at it |
| `TwinAgreement.PlainLinesAgree` | web/src/components/FlameGraph.tsx:55-66 | both line parsers agree on lines with plain decimal counts and ordinary white space |
| `TwinAgreement.DrawBoth` | web/src/components/FlameGraph.tsx:52-84 | on plain text the server's tree against an empty profile and the client's trie both exist or neither does; they have the same paths if and only if no two call paths share their string, and then the same own weights |
| `TwinAgreement.PrintedIsPlain` | analysis/data_parser/collapsed_parser.py:95-102 | what the analyser prints of stacks with ordinary white space and positive counts is plain text, read by the client as the same entries |
| `TwinAgreement.PlainButAmbiguous` | apiserver/server/flame.go:450-465 | the printed stacks ";b" and "b" are plain text on which the two graphs differ |
| `FoldedStacks.ParseInt64` | apiserver/server/flame.go:501-523 | the digit loop, wrapping at every digit |
| `FoldedStacks.GoIntIsWrapped` | apiserver/server/flame.go:501-523 | what it reads is the number written by an optional minus sign and the leading digits, reduced to 64 bits |
| `FoldedStacks.ParseFoldedStacks` | apiserver/server/flame.go:481-499 | one entry per stack with a positive count, repeated stacks added up |
| `FoldedStacks.ParseCollapsed` | analysis/data_parser/collapsed_parser.py:76-92 | one entry per line with an integer behind the last space, repeated stacks replaced |
| `FoldedStacks.StacksToCollapsed` | analysis/data_parser/collapsed_parser.py:95-102 | one line per stack, largest count first, ties in insertion order |
| `FoldedRoundTrip.PyRoundTrip` | analysis/data_parser/collapsed_parser.py:76-102 | printing and parsing gives the dictionary back if and only if no stack has a line break and the one printed first does not start with white space |
| `FoldedRoundTrip.GoRoundTrip` | apiserver/server/flame.go:481-523 | the server reads the printed dictionary back if and only if no stack has a line break or starts with white space and all counts are positive 64-bit numbers |
| `FoldedRoundTrip.LeadingSpaceIsLost` | apiserver/server/flame.go:481-499 | a dictionary that neither parser reads back: its only stack starts with a space |
| `FoldedRoundTrip.ParsersAgreeExactly` | analysis/data_parser/collapsed_parser.py:82-91 | on printed readable entries whose counts are positive and fit 64 bits in sum, the Python and the Go parser agree if and only if no stack is listed twice |
| `FoldedRoundTrip.RepeatedStackDiffers` | analysis/data_parser/collapsed_parser.py:82-91 | a text the two parsers read differently: one stack on two lines |
| `HprofRoundTrip.SubRoundTrip` | analysis/java_heap_analyzer/parser.go:225-496 | every sub-record is read back as what it says, and to its last byte, whatever the types of its constants, static fields and elements |
| `HprofRoundTrip.TypeSizes` | analysis/java_heap_analyzer/parser.go:39-48 | the parser's table has the width of every Java type, and nothing for a code the format does not define |
| `HprofRoundTrip.ArrayWeights` | analysis/java_heap_analyzer/parser.go:483-490 | an array of n booleans or bytes weighs n + 16 bytes, of chars or shorts 2n + 16, of ints or floats 4n + 16, of longs or doubles 8n + 16 |
| `HprofRoundTrip.TagSelects` | analysis/java_heap_analyzer/parser.go:242-297 | each kind of root and each sub-record makes the parser read exactly what is written behind its tag |
| `HprofRoundTrip.TableOf` | analysis/java_heap_analyzer/parser.go:326-369 | a constant pool or a table of static fields of any types is passed over to its last byte |
| `HprofRoundTrip.FileRoundTrip` | analysis/java_heap_analyzer/parser.go:104-180 | parsing the encoding of any well-formed file with 4- or 8-byte ids succeeds and leaves strings, classes, instances, arrays and roots equal to a fold over the records; arrays weigh their encoded elements and 16 bytes, classes the widths of their fields' Java types |
| `HprofParser.Parser.ParseHeapDump` | analysis/java_heap_analyzer/parser.go:225-302 | reads sub-records until the announced length is used up or the data ends |
| `HprofParser.Parser.ParseClassDump` | analysis/java_heap_analyzer/parser.go:306-400 | passes over constant pool and static fields, declares the class with its field types and instance size |
| `HprofParser.Parser.ParseInstanceDump` | analysis/java_heap_analyzer/parser.go:409-439 | lists the instance and credits its class if known by then |
| `HprofParser.Parser.ParseObjArrayDump` | analysis/java_heap_analyzer/parser.go:441-465 | lists the array with 16 bytes of header |
| `HprofParser.Parser.ParsePrimArrayDump` | analysis/java_heap_analyzer/parser.go:467-496 | lists the array by element type as decoding does; `HprofRoundTrip.ArrayWeights` has the sizes |
| `HprofParser.Parser.Parse` | analysis/java_heap_analyzer/parser.go:104-180 | on every byte string fails exactly when decoding does, else has read all bytes and holds the decoded heap |
| `HeapStats.KnownClasses` | analysis/java_heap_analyzer/parser.go:212-222 | the classes known at any point are those a record before it introduced |
| `HeapStats.ClassShares` | analysis/java_heap_analyzer/parser.go:425-433 | every known class counts exactly the instances of it, and their bytes, that come after a record introducing it |
| `HeapStats.NamedByLastLoad` | analysis/java_heap_analyzer/parser.go:195-222 | a class is named by the last record that loads it, with the last text given before for that name, dots for slashes |
| `HprofDecode.DotsForSlashes` | analysis/java_heap_analyzer/parser.go:211 | no slash is left in a class name, and only slashes changed |
| `HeapStats.LaidOutByLastDump` | analysis/java_heap_analyzer/parser.go:371-400 | a class has the fields and the instance size of the last record that dumps it |
| `HeapStats.NeverToldOf` | analysis/java_heap_analyzer/parser.go:348-352 | a class that is never loaded has no name, one that is never dumped no fields |
| `HeapStats.AllListed` | analysis/java_heap_analyzer/parser.go:420-496 | no instance or array is dropped from the lists, and every root is counted |
| `HeapStats.TotalsExact` | analysis/java_heap_analyzer/parser.go:425-433 | the reported number of objects, and the reported total size, are those of all instances and arrays if and only if every instance's class was introduced before it |
| `HeapStats.FileTotals` | analysis/java_heap_analyzer/parser.go:498-525 | the same for every well-formed file and any report of its decoded heap |
| `HeapStats.AnalyzeHprof` | analysis/java_heap_analyzer/main.go:69-78 | parse and report: on the bytes of every well-formed file the reported totals cover all its instances and arrays under exactly that condition |
| `HeapStats.TotalsMissLateClass` | analysis/java_heap_analyzer/parser.go:425-433 | a well-formed file whose reported totals miss an instance: its class is only loaded after it |
| `HeapStats.BuildStats` | analysis/java_heap_analyzer/parser.go:498-552 | totals over classes with instances and over arrays; the first 20 classes by count, and the same classes by size |
| `HeapStats.AverageIsFloor` | analysis/java_heap_analyzer/parser.go:512-517 | the average size of a class is its size over its count, rounded down |
| `HeapStats.TopLists` | analysis/java_heap_analyzer/parser.go:527-545 | the top classes descend and no omitted class has more instances; the top sizes are a rearrangement of them in descending size |
| `Sorting.SortInPlace` | analysis/java_heap_analyzer/parser.go:556-562 | swapping neighbours sorts the array by key, stably |
| `Sorting.SortedKeeps` | analysis/java_heap_analyzer/parser.go:556-562 | sorting only rearranges |
| `Sorting.SortedDescending` | analysis/java_heap_analyzer/parser.go:556-562 | the result descends |
| `Gini.WeightedIsPairGaps` | analysis/stats.py:97-105 | on sorted counts the weighted sum is the sum of all pairwise differences |
| `Gini.GiniCoefficient` | analysis/stats.py:87-105 | the fast computation gives the quadratic coefficient, and 0 for no or zero-sum counts |
| `Gini.CoefficientLaws` | analysis/stats.py:87-105 | for non-negative counts it lies in [0, (n-1)/n], does not depend on the order, and is 0 exactly when all counts are equal |
| `TopN.AnalyzeTopN` | analysis/analyzers/topn.py:11-48 | the functions that are a leaf somewhere, with own count and count times occurrences, by descending own count |
| `TopN.TopListLaws` | analysis/analyzers/topn.py:38-48 | own counts over all functions add up to all samples; no dropped function has a larger own count than a kept one |
| `TopN.Concentration` | analysis/stats.py:54-75 | for non-negative counts 0 <= top 1 <= top 3 <= top 5 <= 100 percent |
| `TopN.PerformanceTiers` | analysis/stats.py:108-130 | each tier lists its entries in order |
| `TopN.TiersPartition` | analysis/stats.py:108-130 | every entry is in exactly one tier |
| `TopN.TierByShare` | analysis/stats.py:108-130 | a function is critical above a tenth of the samples, high above a twentieth, medium above a hundredth, else low |

## Left out

- gRPC, HTTP handlers, SQLite, GORM and object storage: foreign code; writes are taken to succeed and calls to be atomic.
- `Collect` on the server (waiting for a result by polling): it only reads the result cache.
- Persisting task states and reloading them after a server restart (drop/server/HotmethodService.cpp:18-74).
- `RecordContinuousWindow` (drop/server/HotmethodService.cpp:529): nothing calls it, and it would break the numbering of windows.
- Agent heartbeat statistics and online detection: they do not touch task state.
- The retry loop of the agent's reports itself: `DispatchRepeats` has its effect, reports arriving any number of times, not its three attempts and waits.
- The profilers, the storage client and shell scripts the agent runs: their outcome is a parameter of `AgentWorker.BuildResult`.
- Schedule templates (apiserver/server/schedule.go:108-128): they are rows without a creation record, so the audit chain does not cover them.
- Deleting tasks, access checks, groups, natural-language plans and language-model reports.
- DiffGraph.BuildDiffTree: changes and totals are unbounded integers, so overflow of 64-bit sums in the tree is not modelled; the wrap-around of the counts while parsing is.
- HeapStats.BuildStats: totals are unbounded integers; the text of the summary is left out.
- TrieTwin.ParseCollapsedToTree: counts are unbounded integers, so the precision of JavaScript numbers beyond 2^53 is not modelled.
- FoldedStacks.ParseCollapsed: `int()` is modelled for ASCII digits, signs and underscores, not for other Unicode digits.
- Bytes and characters: folded stacks are sequences of characters, and text that is not valid UTF-8 is not modelled.
- HprofParser.Parser.Parse: running out of memory on a huge announced length is not modelled; such a file fails like any that is too short.
- Rounding of percentages and of the coefficient.
- `parse_perf_script`, hot paths and other text parsers: string matching with little structure behind it.
