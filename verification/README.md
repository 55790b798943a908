# Verification of nextask

nextask is a task queue: clients put shell commands into PostgreSQL, workers claim and run them, and
the outcome of every run must reach the task's row although processes, machines and connections fail.
This project models that behaviour in Dafny 4.11 and proves what the code is built to guarantee.
`dafny verify dfyconfig.toml` checks all of it.

## What is modelled

* **The completion protocol** (`Tasks`, `TaskTable`, `Journal`, `Protocol`, `Invariant`, `Steps`,
  `Guarantees`, `Outcomes`, `Progress`, `Interplay`, `Worker`). The protocol is a step relation over any number of workers and workdirs.
  Every SQL statement and every file-system call is one step; a statement may be applied while its
  reply is lost, a process may be killed at any point, a workdir may lose power at any point, and
  clients create, cancel and delete tasks meanwhile. The journal directory has two layers: what
  processes see and what a power loss leaves. `Invariant` and `Steps` show by one lemma per step
  that the invariant holds in every reachable state, and `Guarantees` draws the conclusions over whole runs.
  The move `Submit` stands for any other writer of the journal: it puts in a record that no worker of
  the run built, which the workers' own code never does. `Run` allows it, so the guarantees hold beside
  such writers; `OwnRun` does without it, and there `Outcomes` shows that a claim's outcome is built once.
  `Progress` shows that a worker which meets no failure gets its task, or its recovery, to the end.
  `TaskTable` and `Worker` are the same code as it is written, with fields updated in place:
  `Worker` runs save, finishTask, recoverCompletions, processTask and Run while other processes act
  between any two of its calls, and other processes are held to the rules that the state machine keeps;
  `Interplay` says what its calls then meet.
* **Durable directories** (`Directories`): any number of workers inside `durableDirectory` at once.
* **The log pipeline** (`LogTable`, `Logger`, `LogQuery`, `Streams`, `Viewer`): numbering, bounded queue,
  batches retried over an idempotent insert, and the viewer that follows by an id cursor over a whole stream of reads.
* **The notifier** (`Notifier`): the subscription set across reconnects.
* **URL templates** (`UrlTemplate`, `Templates`, `Ports`, `Connections`): masking references, fresh markers,
  the masked port that is cut out before a URL is parsed, one substitution pass over each component, and
  parse and Resolve with net/url and the checks of a connection type as parameters.
* **Command wrappers** (`Letters`, `Numbers`, `Shell`, `ScriptTexts`, `Integrations`, `Cleanup`, `ExitCodes`): nested quoting read
  back by the shell's own rules, nested cleanup budgets, exit codes through wrappers.
* **Artifacts** (`Selection`, `FetchPlan`, `Fetch`): the pruned walk against the flat filter, conflict
  checks on paths, and publication while others use the destination.
* **Waiting** (`Waiter`): the task set, retried rounds and the exit code of `nextask wait`.

Calls to the outside are data: a list of what others do before each call and how the call ends. A lemma or
method about such a list speaks about every schedule. A clause under `Alone` or `Quiet` speaks about the
schedules in which nobody else acts.

## Where the code does less than its comments say

* A port with references is cut out of the masked text before net/url sees it, so nobody decodes it, and a
  failed `url.PathUnescape` of the whole text is ignored. The marker prefix is then checked against the raw
  text only, and CheckPasswordReference takes a percent-encoded literal password for a reference, as in
  `postgres://u:%6eextaskenvref0end@h:%zz${A}`, so Validate does not refuse it. `Ports.ExactIffThePortDecodes` is the
  exact condition: all accepted templates with a given port are exact if and only if the port can be decoded.
* An exclude pattern that matches "." prunes the whole upload walk, although the filter on names never
  looks at ".". `PrunedWalkIsTheFilter` is the exact condition.
* The viewer's cursor takes the last row's id, not the largest, so a row is printed again when sequence
  numbers and ids disagree. `Streams.NothingIsRepeatedIff` is the exact condition over a whole stream, and
  `LogQuery.DisagreeingOrdersRepeatARow` a table two goroutines can produce.
* A cleanup timeout is sent in whole milliseconds, so with other final timeouts a level can be short by
  less than a millisecond. `Cleanup.NestsIff` is the exact condition; `Cleanup.FractionsFallShort` gives a final
  upload of 1.5 ms around a command that may clean up for 10 ms.

## Model

| member | source | states |
|---|---|---|
| Guarantees.NoOutcomeIsLost | internal/worker/completion.go:38-57 | in every later state of every run, once save returned for a claim or task files were removed, the record is in the journal in both layers or the claim's row is terminal or no row matches the claim |
| Outcomes.TheBuiltOutcomeIsTheStoredOne | internal/worker/completion.go:18-58 | in every run in which workers alone write the journal, a terminal row stores exactly the status, code and finish time of the one outcome built for its claim |
| Outcomes.OneOutcomePerClaim | internal/worker/worker.go:209-228 | in every such run a claim's outcome is built at most once, and only for a claim that was handed out |
| Outcomes.OnlyBuiltOutcomesTravel | internal/worker/completion.go:18-132 | in every such run whatever save returned, a visible record holds or a reply confirmed was built by a run |
| Outcomes.StoredOutcomesWereBuilt | internal/worker/completion.go:38-58 | beside other writers too, a terminal row of a claimed task stores an outcome that was recorded for exactly its claim |
| Guarantees.VisibleRecordsAreComplete | internal/worker/journal.go:72-114 | in every reachable state each visible name decodes to a complete record of its claim, and still does after a power loss at that point |
| Guarantees.SavedRecordsSurvivePowerLoss | internal/worker/journal.go:96-113 | a record save returned, its own or another writer's, is read back after a power loss as long as its claim is open |
| Guarantees.UndoneRemovalIsHarmless | internal/worker/journal.go:172-177 | once a process acknowledges, replaying any record of that claim never changes the table, so a removal undone by a crash is harmless |
| Guarantees.ConfirmationsAgree | internal/db/queries/complete_claim.sql:1-17 | over any run all replies true for one claim carried the same outcome, which is the stored one while the row matches |
| Guarantees.DeletedClaimsTouchNothing | internal/db/queries/complete_claim.sql:1-12 | after the claimed row was deleted its records are never confirmed and never change a later incarnation of the id |
| Guarantees.IncarnationsOnlyMoveForward | internal/db/queries/claim_task.sql:1-11 | between any two states of a run an incarnation keeps its claim and request, moves to later states only, and is frozen once terminal |
| Guarantees.AtMostOnce | internal/worker/worker.go:209-228 | in any run no incarnation is handed to two claimants and no payload of an incarnation starts twice, whatever replies were lost and records replayed |
| Guarantees.RequestsBeforeAReadCancel | internal/worker/task.go:31-41 | a request stored no later than a successful cancellation read of the run makes its outcome cancelled with -1 |
| Guarantees.RequestsBeforeStartPreventIt | internal/worker/task.go:31-48 | a request on the row of a started payload is younger than the read before the start |
| Guarantees.CancelledExactlyOnRequest | internal/worker/task.go:31-101 | while the row of the claim is there, its outcome is cancelled with -1 if and only if a cancel event ended the run or that very row has a request no younger than the run's last successful read; never for a shutdown |
| Guarantees.CancelledOnlyOnRequest | internal/worker/task.go:51-101 | also when the row is gone, an outcome cancelled by a read has a request on the id made after the claim and no later than that read, so a stale request of an earlier row never counts |
| Guarantees.CancelledPendingTasksNeverRun | internal/db/queries/request_cancel.sql:4-12 | over any run, after a request on a pending row that incarnation is never handed out and its payload never starts; its row stays cancelled until it is deleted |
| Guarantees.RecoveryPrecedesWork | internal/worker/worker.go:183-220 | over any kills, power losses and restarts a worker alone in its workdir is never ready to claim while its journal holds a record, whether the claim then finds a task, finds none or loses its reply |
| Steps.StepsAreJustified | internal/worker/completion.go:18-132 | every enabled step of the protocol respects the obligations from which the invariant follows |
| Steps.InvAlways | internal/worker/completion.go:18-132 | the invariant holds in every state of every run |
| Progress.WorkersGoOn | internal/worker/worker.go:183-228 | no program point of a worker is a dead end in a sound journal: what may fail may fail, and a record listed is read or found gone |
| Progress.RunsAreStopped | internal/worker/task.go:50-98 | a run that meets a cancel event, or whose poll sees the request, has a path to the outcome cancelled with -1, whatever the payload returns |
| Progress.RunsMayFailToStart | internal/worker/task.go:20-38 | a claim whose subscription or first read fails is built as failed with -1, and no payload is started for it |
| Progress.EarlierRecordIsTaken | internal/worker/journal.go:96-114 | when the name is taken, the record that is there is kept, synced, cleaned up for, and becomes the outcome to commit |
| Progress.TasksReachTheirEnd | internal/worker/worker.go:209-228 | from every state in which a worker is ready to claim, and for every pending task, the protocol has a run of that worker that ends with the payload's own outcome in the row, every other row as it was, the files cleaned up after the record was saved, no record left and the worker ready again |
| Progress.RecoveryReachesItsEnd | internal/worker/completion.go:102-132 | from every state in which a worker lists its journal, the protocol has a run of that worker after which the journal is empty and every running claim has exactly the outcome its record held |
| Invariant.JustifiedEffectsKeepInv | internal/worker/completion.go:38-57 | any effect that respects those obligations keeps all parts of the invariant, for all processes |
| Journal.JournalStepsAreExact | internal/worker/journal.go:74-177 | each file-system step changes the one file or name it is for; a link never replaces a name that is taken |
| Journal.PowerLossLeavesTheSynced | internal/worker/journal.go:63-70 | a power loss leaves of a name what it led to at its last directory sync or writeback |
| Journal.PowerLossMayTearAnything | internal/worker/journal.go:88-93 | a file that was not synced may hold anything after a power loss; the synced ones are spared |
| Journal.JournalStepsKeepRecordsSound | internal/worker/journal.go:72-114 | content synced before link, and only complete synced files linked, keeps every visible and every durable name sound, power losses included |
| Journal.HeldRecordsStay | internal/worker/journal.go:72-114 | only removing that very name, or a power loss before the directory sync, can lose a held record |
| Tasks.ValidateIs | internal/db/completion.go:27-47 | a completion is valid if and only if its claim is real, it has a finish time, its status is terminal, and it is completed exactly for exit code zero |
| Tasks.BuiltOutcomesValidate | internal/worker/completion.go:22-37 | whatever a task returned, the outcome built for a real claim passes validation, is cancelled or completed exactly when it should be, and keeps the code, or -1 when cancelled, and the finish time |
| Tasks.StatementsAreExact | internal/db/queries/request_cancel.sql:4-12 | column by column what each statement leaves: a pending row is cancelled with a finish time by a request, a running row gets its first request and runs on; a claim, a completion, an insert and a delete change their one row and nothing else |
| Tasks.TaskIdsAre | internal/db/task_id.go:14-22 | exactly the texts of 1 to 53 letters, digits, underscores and dashes that begin with a letter or digit are task ids |
| Tasks.SettledIsForever | internal/db/queries/complete_claim.sql:1-13 | no statement ever reopens a settled claim or makes a gone claim match again |
| Tasks.AnswerSettles | internal/db/completion.go:49-60 | either answer of the statement means the claim is settled, and true means that very outcome is stored |
| Tasks.StatementsMoveRowsForward | internal/db/queries/request_cancel.sql:1-14 | a surviving row moves only pending, running, terminal or pending, cancelled, and keeps what was set |
| Tasks.CompletionTouchesOnlyItsIncarnation | internal/db/queries/complete_claim.sql:1-12 | a completion leaves every row as it is that is not the very incarnation its claim names |
| TaskTable.ClaimableIs | internal/db/queries/claim_task.sql:3-10 | a task may be claimed exactly when it is pending and its tags contain every pair of the filter |
| TaskTable.TaskTable.NextPending | internal/db/queries/claim_task.sql:3-10 | the pending row chosen has all filter tags and no such row is older; nothing is chosen only if there is none |
| TaskTable.TaskTable.ClaimTask | internal/db/tasks.go:207-225 | exactly the oldest matching pending row becomes this worker's and is named by the claim returned; otherwise nothing changes |
| TaskTable.TaskTable.CompleteClaim | internal/db/completion.go:52-60 | an invalid outcome is refused; otherwise only the running row of that very claim changes, and the reply is true exactly when it did or the same outcome was stored |
| TaskTable.TaskTable.RequestCancel | internal/db/queries/request_cancel.sql:1-14 | the reply is the status before; a pending row is cancelled with a finish time after everything before, a running row gets its first request and stays running, every other column and row is as it was |
| TaskTable.TaskTable.CreateTask | internal/db/tasks.go:33-53 | a valid unused id gets a new pending row with a fresh creation time; otherwise nothing changes |
| TaskTable.TaskTable.DeleteTask | internal/db/tasks.go:267-280 | true exactly when the row existed, and only that row goes |
| TaskTable.CompletionIsIdempotent | internal/db/queries/complete_claim.sql:13-17 | repeating a completion changes nothing more and gets the same reply |
| Interplay.ToldInOrder | internal/worker/worker.go:183-228 | a history is told exactly when each of its events leads from the state it found to the next, from the first state to the last |
| Interplay.SentWasHeld | internal/worker/completion.go:102-132 | every outcome this worker sent to the database had stood in the journal before, in that very form |
| Interplay.OthersAreSafe | internal/worker/journal.go:72-114 | nothing other processes do between two of our calls undoes what is settled, guarded or linked, nor touches our temporary file |
| Worker.Worker.Save | internal/worker/journal.go:74-114 | save refuses an invalid outcome, and otherwise returns a valid record of the same claim that can no longer be lost: alone, the one that was there, or else ours; it links at most our own outcome and touches no other record; it succeeds when every call works, whatever others do |
| Worker.Worker.Publish | internal/worker/journal.go:96-114 | the link loop ends, with our record or the one that was there, whatever others link and remove meanwhile |
| Worker.Worker.Prepare | internal/worker/journal.go:78-94 | the temporary file is complete and synced, and there is one if and only if all five calls work, whatever others do |
| Worker.Worker.CompleteOnce | internal/worker/completion.go:60-83 | under every schedule one try changes exactly its row, if it was applied; it is answered exactly when its reply arrives, and tried again exactly after a transient failure or a lost reply |
| Worker.Worker.SaveCompletion | internal/worker/completion.go:60-83 | success settles the claim, true means that very outcome is stored, and the record is guarded throughout; only this outcome is sent, and only after the journal held it; it succeeds if and only if one try is answered before one fails for good; alone, the table is exactly that of one statement |
| Worker.Worker.Acknowledge | internal/worker/journal.go:172-177 | only a settled claim loses its record, and nothing cleaned up becomes unguarded; it succeeds exactly when both the removal and the directory sync do, and then the removal is durable |
| Worker.Worker.FinishTask | internal/worker/completion.go:18-58 | task files go only when the outcome cannot be lost, success settles the claim, a later failure leaves it guarded; what is journaled is the outcome built and what is sent is the record the files went for, whatever others do; alone, the record that was there, or else the outcome built, is stored, and its name is gone |
| Worker.Worker.Recover | internal/worker/completion.go:102-132 | after recovery every claim that had a record at the beginning is settled, whoever else is at work, nothing is linked or claimed, and only records the journal held are sent; alone, for every open claim exactly the outcome its record held is stored and the journal is empty; it succeeds when every call works, whatever others do |
| Worker.Worker.ProcessTask | internal/worker/task.go:13-102 | the payload starts exactly after a subscription and a read that was answered and found no request, and never when a request was on the row before the call unless the row was deleted meanwhile; what is journaled is what was built, under every schedule; alone, the outcome stored is cancelled with -1 if and only if an answered first read saw the request or a cancel event ended the payload, and otherwise has the payload's code, or -1 if it was not started |
| Interplay.BuiltExactly | internal/worker/task.go:20-101 | under every schedule of others and of failing calls, exactly which runs are built as cancelled: those whose first read was answered and saw the request, and those stopped by an event or by a poll that saw it |
| Interplay.FirstReadingIsTrue | internal/worker/task.go:31-38 | the retried read gets an answer exactly when one call works before one fails for good, and the answer is what the database held at that moment |
| Interplay.StopsOnEventOrRequest | internal/worker/task.go:50-98 | a cancel event always ends the payload as cancelled, whatever else is seen; without one only a poll that saw the request does |
| Worker.Worker.ClaimTask | internal/worker/worker.go:260-270 | a claim returned after retries matches a running row of this worker; it is the last one issued and the only one whose reply arrived, and every other one issued is a reply that was lost |
| Worker.Worker.Run | internal/worker/worker.go:183-228 | a worker alone issues every claim over an empty journal; when it ends well every claim whose reply arrived is settled and, alone, every open record of the beginning is stored; it ends well when every call works, and if also nobody else acts it has taken the oldest matching tasks, one for each turn until none is left, and stored for each exactly what its payload made of it |
| Directories.AncestorsAreAlwaysDurable | internal/worker/journal.go:40-61 | with any number of workers interleaving, every existing directory has all its proper ancestors durable |
| Directories.ReturnedDirectoriesSurvive | internal/worker/journal.go:36-61 | a directory for which a call returned exists in every later state, power losses included |
| Directories.EveryCallMakesProgress | internal/worker/journal.go:40-61 | every turn of a call brings it closer to its end, so the recursion ends |
| Directories.CallsReturn | internal/worker/journal.go:40-61 | a call that meets no failure returns after at most 3 calls for each level and 2 more, and then its directory exists and its whole path is durable |
| LogTable.InsertStoresEntries | internal/db/logs.go:36-75 | an insert of known lines with distinct numbers stores all of them and nothing else, even if some were stored before |
| LogTable.Table.InsertLogBatch | internal/db/logs.go:36-75 | the batch is the fold of one insert per line with conflicts skipped, and the reply is the largest new id or zero |
| Logger.TaskLogger.Beside | internal/worker/logger.go:124-138 | every line gets the next number and is queued when there is room or given up, exactly as the events say; conservation is kept: accepted is confirmed, then buffer, then queue |
| Logger.LinesAreConserved | internal/worker/logger.go:124-138 | over any events every line logged is accepted, waiting or given up by its goroutine, with the next number, its stream and its text without NUL, and no other line is |
| Logger.TaskLogger.Flush | internal/worker/logger.go:225-254 | true exactly when some try was applied and answered, and then the buffer is stored; ambiguous tries keep every number stored once; the lines move as the events up to the answer say |
| Logger.TaskLogger.Drain | internal/worker/logger.go:203-222 | complete exactly when nothing is left, which is exactly when every flush that is due gets an answer in time: one for each full buffer and one for the rest |
| Logger.TaskLogger.Run | internal/worker/logger.go:158-199 | which lines are accepted follows from the inputs turn by turn; it drains as soon as it is shut and not before; a complete run has confirmed them all, and it is complete exactly when every flush of the drain is answered; conservation holds throughout with at most max(FlushLines,1) lines outside the queue |
| Logger.TaskLogger.ConfirmedLinesAreStoredOnce | internal/worker/logger.go:156-222 | when everything accepted is confirmed, each line is in exactly one row with its text and no other numbered row exists |
| Logger.CleanKeepsTheRest | internal/worker/logger.go:124-128 | cleaning removes NUL bytes, keeps all other characters in order, and changes nothing else |
| LogQuery.AnswerIsExact | internal/db/queries/get_logs_since.sql:1-4 | a row is in the answer exactly when it is stored with an id above the cursor, and the answer is in order |
| Viewer.LogViewer.ShowNew | internal/cli/attach.go:31-40 | after one read everything visible after the first cursor is printed, exactly once and in order when the orders agree |
| Viewer.VerdictIs | internal/cli/attach.go:23-46 | a round ends the stream with the task exactly when both reads worked and the status is terminal, as gone exactly when the task is missing, and with an error exactly for a permanent failure |
| Viewer.LogViewer.StreamTask | internal/cli/attach.go:16-48 | the stream ends with the first round that ends it, or where the writer fails; when a task is returned every row visible at its terminal status read was printed; no row is skipped; each once and in order when the orders agree; from an empty start no row was printed twice if and only if every answer but the last ended at its largest id |
| Streams.NothingIsRepeatedIff | internal/cli/attach.go:31-40 | over any stream of reads of a growing table no row is shown twice if and only if, at every read before the last, no visible row above the cursor has an id larger than that of the row that sorts last |
| Streams.ShownExactly | internal/cli/attach.go:31-40 | a stream shows a row exactly when one of its reads sees the row above the cursor of that time |
| LogQuery.DisagreeingOrdersRepeatARow | internal/cli/attach.go:35-40 | a concrete table whose second row is printed twice |
| Streams.LateRowsAreNeverShown | internal/db/queries/get_logs_since.sql:3-3 | a row not visible before the cursor reached its id is shown by no read of the rest of the stream, so rows must become visible in id order |
| Notifier.Notifier.Connect | internal/db/notifier.go:131-149 | the connection is taken exactly when every LISTEN succeeds, and then it listens to the channel set and nothing else |
| Notifier.Notifier.AddChannels | internal/db/notifier.go:209-222 | it succeeds exactly when no LISTEN that is sent fails; exactly the names before the failing one are remembered and listened to, all of them if none failed, and nothing else changes in either set |
| Notifier.Notifier.ProcessRequests | internal/db/notifier.go:188-207 | both queues are emptied in any order and every waiting Add gets its one reply, ok when LISTEN works; every channel of an Add answered ok, and every earlier subscription, is subscribed afterwards unless a Remove of it was waiting, and nothing else is |
| Notifier.Notifier.Run | internal/db/notifier.go:235-289 | over any schedule every Add called has its one reply by the end of its turn, also when run returns; an Add answered ok in any turn stays subscribed through any number of reconnects unless a Remove of its channel was waiting then or is called later; nothing else gets subscribed; the set is covered whenever connected; run returns exactly when the context ends, a wait is stopped, or no attempt to reconnect succeeds before one fails for good |
| Notifier.Notifier.WaitingRemovalUndoesAdd | internal/db/notifier.go:188-207 | a Remove still waiting when a later Add of the same channel succeeds undoes that Add |
| Notifier.Notifier.EveryRequestHasOneReply | internal/db/notifier.go:224-233 | every Add ever called is in exactly one place: it has exactly one reply, or it waits for it |
| UrlTemplate.NameCharsAre | internal/urltemplate/urltemplate.go:15-15 | a name is made of letters, digits and underscores and does not begin with a digit |
| UrlTemplate.RefAtIs | internal/urltemplate/urltemplate.go:15-15 | a text starts with a reference exactly when it starts with a valid name in `${...}` |
| UrlTemplate.TokenizeFindsReferences | internal/urltemplate/urltemplate.go:15-15 | the leftmost reference is found, whatever its name, and the search goes on behind it |
| UrlTemplate.TokensSpellTheText | internal/urltemplate/urltemplate.go:15-15 | cutting a text into references and literal characters loses nothing |
| UrlTemplate.PrefixOnlyAtReferences | internal/urltemplate/urltemplate.go:130-143 | with a fresh prefix the masked text contains it exactly where references stood, never across a neighbour or inside a marker |
| UrlTemplate.MarkerAtReference | internal/urltemplate/urltemplate.go:137-143 | at each such place exactly one marker matches, the one of that reference |
| UrlTemplate.ReplaceIsExpand | internal/urltemplate/urltemplate.go:62-72 | one left-to-right pass with first matching marker is simultaneous substitution for all values, including values that look like markers |
| UrlTemplate.OnePassIsExactIff | internal/urltemplate/urltemplate.go:62-72 | one pass is exact for every choice of values if and only if no literal poses as a marker |
| Templates.EscapesDecode | internal/urltemplate/urltemplate.go:132-132 | a percent escape of any byte, with digits in either case, stands for that byte, a plus for a space only in a query, and a percent sign without two digits is an error |
| Templates.UnescapeTheMask | internal/urltemplate/urltemplate.go:137-151 | percent-decoding a masked part gives the mask of the decoded literals, so markers pass through net/url untouched |
| Templates.AcceptedTemplatesExpandExactly | internal/urltemplate/urltemplate.go:77-99 | every component of every accepted template, in path or query decoding, expands to simultaneous substitution whatever the values are and passes for a reference only if it is one, when no undecodable port was cut out |
| Ports.ExactIffThePortDecodes | internal/urltemplate/urltemplate.go:130-179 | for every text a masked port can have, all components of all accepted templates with that port are exact if and only if the port can be percent-decoded; otherwise a literal password comes out of net/url as a marker |
| Ports.PortCutIs | internal/urltemplate/urltemplate.go:160-175 | in the text's own characters exactly what is cut: what follows the last colon of the first authority, up to its end, if no at-sign comes later and the prefix occurs in it |
| Ports.CutIsDelimited | internal/urltemplate/urltemplate.go:158-170 | what is cut follows a colon, ends the authority, has no other delimiter in it and contains the prefix |
| Ports.PortIsAPart | internal/urltemplate/urltemplate.go:158-176 | with a fresh prefix the cut falls between pieces of the template: the port is a run of whole pieces with a reference among them, and both sides stay masked as they were |
| Templates.MaskingIsReversible | internal/urltemplate/urltemplate.go:137-141 | putting `${NAME}` back for every marker gives the original text |
| Templates.IsReferenceMeansOneReference | internal/urltemplate/urltemplate.go:217-225 | a component equals a marker exactly when it is that one reference and nothing else |
| Templates.ContainsReferenceMeansAReference | internal/urltemplate/urltemplate.go:227-235 | a component contains a marker exactly when that reference stands in it |
| Templates.FreshPrefix | internal/urltemplate/urltemplate.go:132-136 | the loop ends with the shortest prefix that occurs in neither text |
| Templates.MaskReferences | internal/urltemplate/urltemplate.go:137-141 | the loop yields the masked text and the names in order |
| Connections.Parse | internal/urltemplate/urltemplate.go:117-179 | a text is refused exactly for a control character, a malformed reference, or a "://" text that net/url refuses without its masked port; otherwise what an empty, whole, local or URL template holds |
| Connections.MaskKeepsSeparators | internal/urltemplate/urltemplate.go:144-148 | the masked text has the mark of a URL exactly when the text has |
| Connections.Values | internal/urltemplate/urltemplate.go:62-69 | each reference in order gets the very value of its variable, which is not blank and has no control character; or the error is that of the first reference without such a value |
| Connections.EnvironmentIsExact | internal/urltemplate/urltemplate.go:106-115 | a value is used exactly as it is set; missing or blank is told apart from a control character |
| Connections.Resolve | internal/urltemplate/urltemplate.go:44-104 | resolving fails exactly when parse or a check refuses, a value is missing or bad, or the expanded host has a delimiter; a text without "://" becomes its simultaneous substitution, a URL that of its expanded components |
| Connections.ExpandedUrlIsSubstituted | internal/urltemplate/urltemplate.go:77-99 | where the cut port decodes and the components are parts of the accepted template, expanding scheme, user, password, host with port, path and query values one by one is substituting all values at once |
| Connections.ParsedUrlIsLaid | internal/urltemplate/urltemplate.go:158-179 | when net/url's answer to the text it is shown consists of parts of the template, with the host ending in ":0" if a port was cut out, then the URL that parse keeps consists of parts of the template too, its host being that of the template, a colon and the masked port |
| Connections.SubstitutedHost | internal/urltemplate/urltemplate.go:170-175 | the host of the substituted URL is the substitution of the template's host, a colon, and the substitution of its port |
| Connections.ResolvedUrlIsSubstituted | internal/urltemplate/urltemplate.go:70-103 | so, with and without a cut port, what Resolve returns for a URL is the text of the URL whose components are the simultaneous substitutions of the template's parts |
| Connections.IsReference | internal/urltemplate/urltemplate.go:217-225 | true exactly when the component equals one of the markers |
| Connections.ReportedIffOneReference | internal/urltemplate/urltemplate.go:207-225 | where the components are exact, a password or user name is reported as a reference if and only if it is one reference and nothing else |
| Shell.QuotedIsOneWord | internal/integrations/integrations.go:113-114 | a POSIX shell takes a quoted value as one word equal to it, exactly when it has no NUL |
| Shell.ScriptsReadBack | internal/integrations/git.go:90-102 | a shell reads back from a script exactly the quoted arguments, whatever they contain, unless one has a NUL |
| Numbers.ParseReadsFormat | internal/integrations/runtime.go:28-28 | the decimal timeout printed into a command is read back as the same number |
| Numbers.FormatIsShort | internal/integrations/runtime.go:28-28 | a number is printed without leading zeros and with a sign only if it is negative |
| Integrations.Prepare | internal/integrations/integrations.go:94-111 | the loop from the last step is the composition of all steps, with the first failure, range error or identity change reported |
| Integrations.PlansPrepareExactly | internal/integrations/integrations.go:94-111 | a plan is prepared if and only if every snapshot is complete and every configuration readable, no Git wrapper is put around a command with a NUL, and every cleanup timeout on the way is in range; otherwise the error is that of the first step prepared that fails |
| Integrations.SnapshotsReadBack | internal/integrations/git_runtime.go:21-25 | the worker reads the very snapshot from the options that was put into them |
| Integrations.StepReadsBack | internal/integrations/runtime.go:23-29 | one wrapper is read back as its own layer around its own command, and no kind of wrapper is taken for another |
| Integrations.PreparedCommandsUnwrap | internal/integrations/integrations.go:92-111 | for every plan the prepared command unwraps to the selected steps in order, outermost first, ending in the original command, if and only if there are no steps or the command has no NUL |
| Integrations.LevelsAreComposed | internal/integrations/integrations.go:94-111 | every level of a plan is itself a plan, and its layer carries the timeout of the level inside |
| Integrations.BudgetsAdd | internal/integrations/s3.go:43-53 | the cleanup timeout is the task's own plus all final uploads and stays within 24 hours |
| Integrations.BudgetsNest | internal/taskexec/process.go:71-74 | for any step around any plan the grace outside covers the grace inside plus the own final upload for whole milliseconds, is short by less than one otherwise, and the timeout sent inside is accepted there |
| Cleanup.GraceIs | internal/taskexec/process.go:71-74 | an interrupted command gets five seconds, and with any cleanup time that time and one second more |
| Cleanup.NestsIff | internal/storage/run.go:55-62 | a level nests exactly if its final timeout is whole milliseconds, the fractions carry, or it is the first with any cleanup time |
| Cleanup.FractionsFallShort | internal/integrations/runtime.go:28-28 | concrete timeouts at which a level does not nest, and by how much |
| Cleanup.ShortfallIsUnderAMillisecond | internal/integrations/runtime.go:28-28 | whatever the timeouts, a level is short by less than a millisecond |
| ExitCodes.WrappersKeepTheOutcome | internal/taskexec/process.go:30-113 | through any number of wrappers success means the command succeeded, every level was started and none was interrupted or failed its upload; a failing command's code is never replaced; a level not started reports 130 or 1, the outermost one decides; around a command that succeeds the innermost interrupt or failed upload decides, 130 or 1 |
| Selection.IsExcluded | internal/storage/filter.go:45-55 | the loop finds a match exactly when the name or an ancestor below "." matches |
| Selection.ReservedIs | internal/storage/filter.go:28-35 | exactly the spellings of .git and .nextask under simple case folding are reserved |
| Selection.EqualFoldIs | internal/storage/filter.go:28-35 | two texts are equal under folding exactly when they agree letter by letter up to case |
| Selection.PrunedWalkIsTheFilter | internal/storage/sync.go:94-122 | for every tree the pruned walk hands over exactly the filtered files in order, if and only if no exclude matches "." or nothing is selected |
| Selection.RootPatternsLoseFiles | internal/storage/sync.go:107-110 | a concrete filter and tree where the walk loses a file |
| FetchPlan.Collect | internal/storage/fetch.go:49-78 | the listing is refused exactly when some key is not under the source with an empty or safe name, up to one final slash; otherwise every wanted file, in any directory, is taken as often as it is listed, and nothing else |
| FetchPlan.TakenExactly | internal/storage/fetch.go:49-78 | a name is taken as often as its key is listed if it is wanted, not empty and no directory, and otherwise never |
| FetchPlan.SafeKeysAreListed | internal/storage/fetch.go:49-72 | a key is accepted if and only if it is the source and a name that is empty or safe, with at most one more slash |
| FetchPlan.SafeNamesLeadDown | internal/storage/fetch.go:67-72 | exactly the names whose every part leads one level down are safe, if they have no backslash or NUL and are not reserved |
| FetchPlan.PartsSpellTheName | internal/storage/fetch.go:67-67 | cutting a name at its slashes, and only there, loses nothing |
| FetchPlan.FirstDifferenceDecides | internal/storage/fetch.go:85-85 | the order of sorting is that of the first difference, a beginning before the whole |
| FetchPlan.FindDuplicate | internal/storage/fetch.go:86-93 | a duplicate is found exactly when some name occurs twice |
| FetchPlan.SelectedAncestor | internal/storage/fetch.go:94-100 | the walk to the parents finds a selected ancestor exactly when there is one |
| FetchPlan.Plan | internal/storage/fetch.go:46-100 | a selection is accepted exactly when every key is safe and it is not empty, free of duplicates and of ancestors; it is then every wanted file of the listing, once and sorted; each error names its cause |
| FetchPlan.AcceptedNamesAreDistinct | internal/storage/fetch.go:86-100 | accepted names at different places differ and neither is an ancestor of the other |
| Fetch.Destination.Rename | internal/storage/fetch.go:199-201 | unless the call fails, the file goes to the path in the files as others left them when the call began, and this is recorded; otherwise nothing of ours changes |
| Fetch.Destination.Link | internal/storage/fetch.go:202-203 | succeeds exactly when the call works and the path is free in the files as others left them then; only then the file is put there, and nothing is ever replaced |
| Fetch.SameIsUntouched | internal/storage/fetch_paths.go:110-124 | a file that was not touched is the same, and any other differs in identity, size or time |
| Fetch.Destination.FetchFile | internal/storage/fetch.go:149-204 | publishes a complete file of the announced size and checksum or changes nothing; under every schedule of others it succeeds exactly when the object is complete, in time, every call works, and the path is as planned whenever it is looked at, and for a path planned as free still when the file is linked |
| Fetch.Destination.Run | internal/storage/fetch.go:101-146 | however it stops and whatever others do, the files are the replay of their steps and the recorded publications in order, an initial segment of the names, each complete, none on a path that was occupied but planned as free, and otherwise over the planned file as last seen at most one call before; without overwrite nothing is replaced; undisturbed, exactly the published paths changed, and it succeeds exactly when every path and object is good |
| Fetch.Destination.PlanTargets | internal/storage/fetch.go:101-122 | what is planned for each path is what it held at some moment of the planning; undisturbed it is what it held, and planning succeeds exactly when every path is free or a regular file that may be replaced |
| Fetch.Destination.OtherPathsAreTheirs | internal/storage/fetch.go:198-203 | as long as others move no files, a path no publication refers to is just as they made it |
| Fetch.Destination.FetchTask | internal/storage/fetch.go:39-147 | from the listing to the last file: a refused selection touches nothing; success means every wanted file of the listing; otherwise, whatever others do, the files are the replay of their steps and the publications, an initial segment of the accepted, sorted, conflict-free selection |
| Waiter.FirstFailureIsFirst | internal/cli/wait.go:237-242 | the code computed is zero exactly when all codes are, and otherwise the first nonzero one in report order |
| Waiter.CodesAreTheTasks | internal/cli/wait.go:218-226 | the code of a task is its own exit code if it has one; without one it is 1 for a task that does not exist or went stale and 0 for one cancelled before it ran |
| Waiter.Waiter.Discover | internal/cli/wait.go:147-166 | a listing adds exactly its tasks if it works and the new channels can be subscribed, and otherwise none |
| Waiter.Waiter.Check | internal/cli/wait.go:168-198 | it asks for the waiting tasks in order, all of them when it goes on, and the reports are exactly the final answers of the database about the tasks asked for; a fault in the middle keeps what was reported; it stops only for a fault, a failed print or an interrupt; only a failed print loses a task |
| Waiter.Waiter.Retried | internal/cli/watch.go:92-103 | retried rounds still report each task at most once and exactly as answered; when they go on every waiting task was found open meanwhile |
| Waiter.Waiter.Run | internal/cli/watch.go:84-115 | the wait exits only when every selected task was reported exactly once, or after one report with any, with the first nonzero code among the final answers of the database in the order of asking; after the listener closes nothing more is waited for, and it is an error only when the check after it leaves tasks that were found open; without a fault it waits to the end of its inputs |

## Left out

- PostgreSQL itself: each statement is one atomic step. `SKIP LOCKED`, snapshots and the race between the two reads inside request_cancel.sql are not modelled, and the protocol may claim any pending row; the oldest-first choice is in TaskTable.
- The database clock strictly increases, so creation and start times are distinct; a finish time is any nonzero number, already cut to the database's resolution.
- The journal's file names are the claims themselves, which takes completionName to be injective; temporary names are inode numbers, and JSON encoding and size limits of a record are one step.
- A power loss of a workdir's machine also ends the workers in that workdir.
- Directories made by others are durable at the beginning, as Directories.Init says.
- Worker.Worker.Save: the initialisation of the journal directory is one call here; its steps are modelled in Directories.
- Worker.Worker.ClaimTask: which pending row is picked is a parameter; after a lost reply the row stays running and is not this worker's claim.
- Worker.Worker.ProcessTask: under interference the contract says what is built, journaled and sent; which of several records of the claim is stored is stated for runs in which nobody else acts.
- Worker.Worker.Run: each turn of the loop is one job; waiting for a wake event, the idle limit and the single-task mode are not modelled, and a claim whose reply was lost stays running.
- Fetch.Destination.Rename: a file put at the path between the last check and the rename is replaced, as in the code; the history tells what it replaced.
- Fetch.Destination.FetchFile: making and opening parent directories is one outcome per name, temporary names are outside the slots, and files of others are never given the identity of a file made by this fetch.
- Templates.AcceptedTemplatesExpandExactly: where net/url and ParseQuery cut a text is a parameter, each part read in path or query decoding; a text whose first "://" does not follow its scheme, so that the cut port lies within another component, is not covered.
- Connections.Resolve: parsing, formatting and the checks of a connection type are parameters, and the errors of environment are told apart only as missing or bad; white space is ASCII white space only.
- Integrations.PreparedCommandsUnwrap: unwrapping matches the fixed script text literally and reads every argument by the shell's rules; running the script is not modelled. Options travel through any encoding with an inverse and without NUL.
- Registry.Resolve, option parsing and configuration: looking up integrations by name, defaults and types of option values, and reading the configuration file.
- Viewer.LogViewer.StreamTask: rows become visible in id order, because the code needs it; Streams.LateRowsAreNeverShown says what happens otherwise.
- Logger.TaskLogger.Run: an unbuffered queue is a queue with room for one line; replacing invalid UTF-8, local log files and notifications are not modelled.
- Notifier.Notifier.Run: delivery of notifications and timing are not modelled; an Add whose queue is full waits outside the model, and so does one that is called after run returned.
- Waiter.Waiter.Run: time limits and the text of lines are not modelled; when an input is used up the wait is interrupted.
- Heartbeats, stale display, back-off timing, daemon start-up, tables and styles: timing, liveness or display only.
- Git and S3 clients, SHA-256, glob patterns and listings: parameters.
- complete_task.sql and CompleteTask: used by tests only, and they would break the guards.
- Real processes, pipes and signals: only the grace periods and exit codes are modelled.
