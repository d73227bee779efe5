# Crawler-lite: the task lifecycle, verified

A Dafny model of how the crawler-lite master and its workers carry a task from queue to
final status, with proofs of what the code keeps under every interleaving. It follows the
Go code of the master (`internal/hub`, `internal/task`, `internal/repository`,
`internal/notify`, `internal/storage`, `internal/api/tasks`), of the worker
(`internal/runner`) and the browser's log hook (`web/src/hooks`). The lease, claim and
reaper designs under `docs/` and `plans/` have no code behind them and are not modelled.

`dafny verify dfyconfig.toml` checks the whole project.

## How it is built

Code that changes state step by step is a class whose methods carry the source's branches
and loops; what a method promises is a function of the old state. Code that runs
concurrently is also a state machine with one step per critical section or remote call;
`Valid(s, steps)` and `Run(s, steps)` range over every finite interleaving. Lemmas named
`...IsARun` or `...IsAPath` join the two forms: what one call does is a run of the machine,
so the invariants of all runs cover the calls.

| component | in place | machine |
|---|---|---|
| hub sessions, slots, task index | `WorkerHub.dfy`, `MasterLoop.dfy` | `HubLedger.dfy`, joined in `HubRefinement.dfy` |
| task rows, reports, dispatch pass | `TaskTable.dfy`, `TaskService.dfy`, on `Reports.dfy`, `DispatchPlan.dfy` and `DispatchPass.dfy` | `TaskLifecycle.dfy`, `LostWrites.dfy`, joined in `LifecycleRefinement.dfy` |
| retry policy and delays | `RetryPolicy.dfy` | |
| a worker's runs and their outbox | `WorkerRun.dfy` | `WorkerRun.dfy`, `WorkerOutbox.dfy`, `RunEvents.dfy`, followed to the row in `RunDelivery.dfy` and to the item store in `ItemDelivery.dfy` |
| a worker's slot counters and cancel table | `WorkerSlots.dfy` | `WorkerSlots.dfy` |
| the end of a worker's connection | | `WorkerTeardown.dfy` |
| spider virtualenvs | `DepsInstall.dfy` | `VenvInstall.dfy` |
| task logs | `LogSink.dfy`, `ObjectStore.dfy`, `LogViewer.dfy`, format in `Jsonl.dfy` | `LogPipeline.dfy` |
| notification channels | `Notify.dfy` | `NotifyCache.dfy` |
| error truncation, small helpers | `Utf8.dfy`, `Text.dfy`, `Options.dfy` | |

Remote calls, clocks and processes are parameters: each call's success or failure, the
current time, what a subprocess printed. `Reports.Db` has one flag per database call that an
update, a retry decision or a build makes. A value the language leaves to the platform (an
out-of-range float-to-integer conversion) is its field `wild`.

## Where the code differs from what it says or seems to promise

- A download that fails before an upload that works is read as an absent object, so the
  append overwrites the log. The comment in `internal/storage/minio.go:96-98` expects the
  upload to fail too. `LogConservation` gives the exact condition, `TruncationHappens` a run.
- `internal/task/retry.go:134-135` says the delay cannot overflow. With the default 30 s
  base it does from attempt 30 on; a negative result is not capped
  (`DefaultExactIff`, `DefaultBaseOverflow`). `BackoffExactIff` says for every policy, capped
  or not, and every attempt when the delay is the one meant.
- The cut of an install error at 2048 bytes (`internal/runner/executor.go:136-139`) is not
  the character-safe one: it leaves valid text exactly when it lands on a boundary
  (`PlainCutIff`), and at every limit above zero some text is split (`PlainCutSplits`).
- The truncation loop would index below zero on a text whose first bytes are all continuation
  bytes (`TruncateErr` returns `None`). Valid text never gets there (`TruncationIsSafe`), and
  its one caller passes decoded JSON strings and exit errors, which are valid.
- A viewer gets no history until an index upsert has succeeded, whatever the object holds
  (`NoHistoryIff`, `StoredButNotReplayed`).
- A channel mutation drops the memo before it writes, so a reader in between can put the
  old list back for five more seconds (`WriteCanStayHidden`). A write shows at once to
  everyone who asks later exactly under the condition of `WriteShowsIff`.
- When a task is assigned twice to one worker, the second run's start, and then the first
  one's end, take the other's cancel function out of the table (`DuplicateLosesCancel`);
  `CancellableIff` says exactly when every live run stays cancellable.
- Two read loops can carry the same task's log lines, and their writes may overtake one
  another (`OvertakingHappens`; the order is kept exactly when always the oldest pending Write
  enters the buffer, `WrittenInOrderIff`); none is lost or doubled by that (`LogConservation`).
- The dispatcher ignores a failed status update of a row it cannot build
  (`internal/task/service.go:359`) and retries it all the same. The row stays queued, so the
  next pass fails it again: it collects retries without bound (`LostFailuresPileUp`). The bound
  of one child per failure counts those failures too (`BoundedLineages`), and the written ones
  alone give it exactly when none was lost (`FailuresAreWrittenIff`).
- A cancel sends to the session it looked up after dropping the lock. If the session
  unregistered in between, its outbox is closed and the send panics
  (`CancelMeetsClosedIff`, `CancelHitsClosed`).
- A worker whose outbox is full when its stream fails may never connect again: the heartbeat
  loop waits for room that no pump makes any more, and the receive loop waits for it, a
  shutdown notwithstanding (`ReconnectsIff`, `HangHappens`).
- A captcha notice ends the task for the hub (`internal/hub/hub.go:228-230`) while its process
  goes on: every item it scrapes after the notice is dropped as one of an unknown task. What
  is stored is exactly what comes before (`StoredItems`), so all of it exactly when no item
  follows a captcha (`AllItemsStoredIff`).
- A channel update with an empty address skips validation and stores it.

## Model

| member | source | states |
|---|---|---|
| HubLedger.ReserveIff | internal/hub/hub.go:333-340 | reserving keeps free plus running equal to the concurrency exactly when the session does not hold the task yet, and then a rollback undoes it |
| HubLedger.ReleaseIff | internal/hub/hub.go:308-314 | a release keeps that balance exactly when the session holds the task or has nothing to free |
| HubLedger.OutboxInOrder | internal/hub/hub.go:267-281 | in every run what was sent to a registered session is, in order, what its pump has passed on and then its outbox, which never holds more than 64 messages |
| HubLedger.SlotLedger | internal/hub/hub.go:283-358 | in every interleaving at lock granularity without heartbeats, double assignments and double releases, cancels included, every registered session stays balanced, and up to steps in flight the task index is the disjoint union of the running sets |
| HubLedger.HubIndexAgrees | internal/hub/hub.go:239-249 | in every interleaving, heartbeats, double assignments and releases and cancels under way included, an index entry names a registered session and its row's spider, every persisted item carries its task's spider, and Assign only ever sends to an open outbox |
| HubLedger.CancelMeetsClosedIff | internal/hub/hub.go:289-376 | in every run a cancel whose look-up found a session sends to a closed outbox exactly when that session unregistered after the look-up; otherwise it is still registered and its outbox gains the message exactly when it has room |
| HubLedger.CancelHitsClosed | internal/hub/hub.go:361-376 | a run from the start in which that happens |
| HubRefinement.AssignIsARun | internal/hub/hub.go:330-358 | a whole Assign, for any session order, is a run of the lock-level machine that ends with the hub lock free and the call's sessions and index |
| HubRefinement.CancelIsARun | internal/hub/hub.go:361-376 | a cancel with nothing beside it is that machine's look-up and send |
| WorkerHub.Conn.Offer | internal/hub/hub.go:333-355 | one turn of the loop assigns exactly when there is a free slot and outbox room, and otherwise leaves the counter as it was |
| WorkerHub.Conn.Release | internal/hub/hub.go:309-314 | drops the task and frees a slot, never above the concurrency |
| WorkerHub.Hub.Assign | internal/hub/hub.go:330-358 | succeeds exactly when some session has a slot and room; exactly one such session takes the task, it alone gets the message, and the index names it |
| WorkerHub.Hub.Unregister | internal/hub/hub.go:289-299 | removes the session and exactly its index entries |
| WorkerHub.Hub.ReleaseTask | internal/hub/hub.go:308-319 | frees the slot and forgets the task, nothing else |
| WorkerHub.Hub.LookupTask | internal/hub/hub.go:301-306 | finds exactly the indexed tasks |
| WorkerHub.Hub.CancelRunning | internal/hub/hub.go:361-376 | the cancel message goes to the task's own session if the index knows it and there is room, otherwise nowhere |
| MasterLoop.ReadLoop.Handle | internal/hub/hub.go:189-265 | per message: a persisted update puts the row in the status of the reported state, each state named, with its errors, and of the five ending states also frees the slot and forgets the task; an item of an indexed task, an artifact, a log line or the two numbers of a heartbeat go where they belong; and nothing else changes |
| MasterLoop.ReadLoop.Serve | internal/hub/hub.go:189-265 | over any message sequence every row there was gets the writes of its own persisted updates in order, every new row is the queued retry of a failure reported in one of the messages, exactly the ended tasks leave the index and the session, and exactly the items of tasks still indexed, the artifacts and the log lines are stored, in order |
| MasterLoop.MessageMeans | internal/hub/hub.go:189-265 | the same of one message as a function |
| MasterLoop.AfterMany | internal/hub/hub.go:204-230 | the same of the table as a function of the messages |
| MasterLoop.LoopLeaves | internal/hub/hub.go:189-265 | the index, the session and the sinks after any messages: which tasks are gone, and exactly which item, artifact and log rows were added, in order |
| MasterLoop.FreeSlotsAfter | internal/hub/hub.go:308-314 | any messages without a heartbeat raise the free slots by the number of ended runs, up to the concurrency, and keep the running count |
| MasterLoop.HeartbeatOverwrites | internal/hub/hub.go:199-201 | a heartbeat overwrites both numbers, and the free slots grow from what it said, whatever came before |
| RunDelivery.TerminalStatesAgree | internal/hub/hub.go:378-407 | a slot is released for exactly the states that end a row, and no report writes queued |
| RunDelivery.WriteByState | internal/hub/hub.go:378-396 | a message writes a row exactly when it is a persisted update of it with a known state, in the status named for that state and with its errors, worker and time |
| TaskTable.RowHistory | internal/repository/tasks.go:147-159 | after any writes a row is the fold of its history: queued before the first, status and errors from the last write, started_at from the first running one, finished_at from the last terminal one, worker the last non-empty one, identity untouched |
| TaskTable.Tasks.Create | internal/repository/tasks.go:75-90 | a fresh id, a queued row with attempt at least 1, every other row untouched |
| TaskTable.Tasks.SetStatus | internal/repository/tasks.go:147-159 | the row becomes its history's next state; an unknown id changes nothing |
| TaskTable.Tasks.ListQueued | internal/repository/tasks.go:122-143 | every eligible row exactly once, oldest first |
| DispatchPlan.CapacityIff | internal/hub/hub.go:330-358 | the sessions' summed slot-and-room minimum is positive exactly when some session can take a task |
| DispatchPlan.AssignUsesOne | internal/hub/hub.go:330-358 | an Assign succeeds exactly when that sum is positive and lowers it by exactly one, or leaves it |
| DispatchPlan.AssignSendsOne | internal/hub/hub.go:342-355 | an Assign adds its message to exactly one of all outboxes, or to none |
| DispatchPlan.AssignsFirstBuildable | internal/task/service.go:347-378 | a pass assigns the first min(capacity, buildable) buildable rows in queue order |
| DispatchPlan.PassSplits | internal/task/service.go:353-374 | a pass ends after the listing or at the first buildable row met with the capacity used up; a row is assigned exactly when it is before that and buildable, and failed exactly when it is before that and not |
| TaskService.Service.DispatchOnce | internal/task/service.go:347-378 | an isolated pass over the real hub and table, any database call of it failing or not: the rows handed over are due and their spider has source, the rows failed are due and lack it and show which part is missing where that could be saved, no due row is left while there is capacity, each handed row's message is in exactly one outbox, and no other row changes but the retries added |
| DispatchPass.PassRows | internal/task/service.go:347-410 | the same of a finished pass as a function |
| DispatchPass.ListedRows | internal/repository/tasks.go:122-143 | a listing holds exactly the queued rows whose time has come, oldest first, and those it can build are those with source |
| Reports.BuildsIff | internal/task/service.go:382-389 | a row can be built exactly when its spider can be looked up and has synced source, and the error says which is missing |
| DispatchPass.FailedRows | internal/task/service.go:354-364 | the table after failing any rows: their build error where its write was saved, every other row as it was, and under the next ids exactly the retries the policies ask for, a lost write or not |
| DispatchPass.OneRetryEach | internal/task/service.go:275-315 | those retries are at most one per failed row, each what the decision on that row gives |
| TaskService.Service.DispatchRow | internal/task/service.go:353-376 | one row is failed exactly when its spider is not found or has no source, with its retry and showing which if that can be saved, and is otherwise handed over or left by whether there is capacity; the table and hub are otherwise untouched |
| TaskService.Service.Queue | internal/task/service.go:142-166 | each rejection by its cause, the missing spider's foreign key and failing calls included, with nothing changed, and otherwise the row inserted |
| TaskService.Service.Cancel | internal/task/service.go:183-188 | the row is cancelled whatever it was unless the write fails, no child is added, and only then and only an indexed task's session with room is told |
| TaskService.Service.OnUpdate | internal/task/service.go:201-254 | a row is added exactly when a failure or timeout is reported, the decision can be made and the policy grants one more attempt; which retry it is; the rows otherwise; and the event handed to the notifier |
| Reports.ReportAddsIff | internal/task/service.go:201-315 | the same of the table as a function: exactly when a row is added, all its fields, and that of the others only the reported one changes |
| TaskService.Service.MaybeScheduleRetry | internal/task/service.go:275-315 | the child inserted, if any, and the two numbers for the notification, for every combination of failed reads and INSERT |
| LifecycleRefinement.ReportIsARun | internal/task/service.go:201-315 | a report of any status about a handed row, with its retry decision, is a run of the lifecycle machine ending in the same table |
| LifecycleRefinement.DispatchIsARun | internal/task/service.go:347-378 | what a pass does to the table, lost writes included, is a run of the lifecycle machine: listed, then row by row handed out or failed and settled, and the rows handed out are exactly those the pass hands over, at its time |
| LifecycleRefinement.PassIsARun | internal/task/service.go:353-377 | the same from any point of a pass and any remaining capacity |
| LifecycleRefinement.CancelIsARun | internal/task/service.go:183-188 | a cancel is the machine's step with the same table |
| LifecycleRefinement.QueueIsARun | internal/task/service.go:142-166 | so is queueing |
| TaskLifecycle.BoundedLineages | internal/task/service.go:275-315 | in every run, configs edited at will and lost writes included: attempt is depth plus one and within 1 to 100, a retry has its root's spider, version and args, and a row has no more children than times it was failed, saved or not |
| TaskLifecycle.LineageAtMost100 | internal/task/retry.go:106-121 | if each row is failed at most once, saved or not, one queued task gives at most 100 rows ever |
| TaskLifecycle.RetryPacing | internal/task/service.go:291-304 | in every run a retry is never handed to a worker before its root's first failure, saved or not, plus all delays decided on the way to it |
| TaskLifecycle.WrittenRowsAreNotHanded | internal/task/service.go:347-378 | a row written once and outside the current pass is never handed out again, however the run goes on, and is never queued again |
| LostWrites.FailuresAreWrittenIff | internal/task/service.go:354-364 | in every run a row's failures are its failing writes, in order, exactly when the dispatcher never lost the write of one |
| LostWrites.ChildrenOfWrittenFailures | internal/task/service.go:354-364 | then a row has no more children than failing writes |
| LostWrites.LineageOfWrittenFailures | internal/task/service.go:354-364 | and rows written as failing at most once make lineages of at most 100 |
| LostWrites.PacingByWrittenFailures | internal/task/service.go:291-304 | and a retry waits for its root's first failing write plus the delays |
| LostWrites.LostFailuresPileUp | internal/task/service.go:354-364 | for any number a run that gives one row, queued and never written, that many children |
| RetryPolicy.PolicyFromSpiderConfig | internal/task/retry.go:56-95 | the parsed policy field by field, malformed fields falling back to the default |
| RetryPolicy.PolicyFields | internal/task/retry.go:36-95 | the policy by the fields of the config: each number from its own field in nanoseconds, exact up to the int64 limit and wrapping beyond, the classes those the list names, and the default for a malformed field |
| RetryPolicy.NormalIff | internal/task/retry.go:80-92 | a text names a class exactly when it spells it out in any case with any white space around it |
| RetryPolicy.ConfiguredDelay | internal/task/retry.go:56-150 | from the config's own base b and cap c in seconds to the delay: b, 2b, 4b, ... or b, 2b, 3b, ... seconds, at most c |
| RetryPolicy.PolicyIsValid | internal/task/retry.go:54-95 | no config gives a policy with attempts outside 1 to 100, an unknown backoff or a class that may not be retried |
| RetryPolicy.AllowedIff | internal/task/retry.go:80-92 | a class is in the parsed list exactly when it is retryable and some string of the config names it, whatever its case and padding |
| RetryPolicy.DecideIff | internal/task/retry.go:106-121 | from any config a failure is retried exactly when attempts are left and the policy lists its class, which leaves out captcha and unclassified failures, and then after that attempt's delay |
| RetryPolicy.DecideIsBounded | internal/task/retry.go:56-121 | for every config a retry is decided only for timeout, exit, deps or build_assign and only below attempt 100 |
| RetryPolicy.BackoffFor | internal/task/retry.go:125-150 | the branches and clamps compute the int64 and float64 arithmetic of the specification |
| RetryPolicy.FloatExactIff | internal/task/retry.go:143-144 | the float path gives base times a power of two on every platform exactly when the base has at most 53 significant bits and the product fits an int64 |
| RetryPolicy.BackoffExact | internal/task/retry.go:125-150 | within the domain the delay is base times attempt, or base times 2^(attempt-1) up to the 31st, under the cap, and never negative |
| RetryPolicy.BackoffExactIff | internal/task/retry.go:125-150 | for every policy, capped or not, and every attempt the delay is the intended one under the cap on every platform exactly when the linear product fits or wraps to at least the cap, or the exponential one fits and the base's rounding changes nothing the cap does not hide |
| RetryPolicy.DefaultExactIff | internal/task/retry.go:36-42 | for the default policy that is attempts 1 to 29 |
| RetryPolicy.BackoffMonotone | internal/task/retry.go:125-150 | within the domain delays never shrink from one attempt to the next |
| RetryPolicy.ScaledIsExact | internal/task/retry.go:144 | a number with at most 53 significant bits, whatever its size, survives the conversion |
| RetryPolicy.FloatIsNearest | internal/task/retry.go:144 | any other number becomes the nearest one with 53 significant bits |
| RetryPolicy.RoundedIsNearest | internal/task/retry.go:144 | of two equally near, the even one |
| RetryPolicy.TotalExponential | internal/task/retry.go:133-145 | k uncapped delays add up to base times 2^k - 1, k up to 31 |
| RetryPolicy.TotalCapped | internal/task/retry.go:146-148 | k capped delays never exceed k times the cap, inside the domain or not |
| RetryPolicy.DefaultBaseDomain | internal/task/retry.go:36-42 | for the default 30 s base the domain is attempts 1 to 29 and no others |
| RetryPolicy.DefaultBaseOverflow | internal/task/retry.go:134-148 | from attempt 30 on the delay is the platform's value, and a negative one stays negative |
| WorkerRun.PumpEvents | internal/runner/executor.go:607-703 | the outbox and both observers after any FD 3 stream: every item, screenshot, log line with its traceback and captcha notice of the lines before the first over-long one is sent, each kind in order and nothing else, malformed and unknown lines skipped |
| WorkerRun.StreamIsSent | internal/runner/executor.go:607-703 | the same of the messages as a function, all about the task, and a longer stream only adds to them |
| WorkerRun.ReadableIff | internal/runner/executor.go:607-616 | the lines read are those before the first over-long one |
| WorkerRun.ClassifyIsTerminal | internal/runner/executor.go:283-306 | every outcome is terminal, failures are of class timeout or exit, and a seen captcha overrides both exits but not a cancel or a deadline |
| WorkerRun.ClassifyIff | internal/runner/executor.go:283-306 | each outcome has exactly one cause, in the order cancel, deadline, captcha, exit status, and an exit failure's error is valid text within the limit when the process's texts are valid |
| WorkerRun.ObserversHoldTheLast | internal/runner/executor.go:218-263 | after any stream the observers hold the last captcha message and the last error with its traceback |
| WorkerRun.ResultByCause | internal/runner/executor.go:218-306 | the result from the readable stream and the exit: cancelled, timed out, the last captcha's message, the last logged error with its traceback or else the exit error, cut to the limit, or success, each with its class |
| WorkerRun.RunStep | internal/runner/executor.go:188-216 | each step of a run keeps its grammar, ties the observers to the part of the stream read so far, and makes the verdict the classification of the whole readable stream |
| WorkerOutbox.RunGrammar | internal/runner/worker.go:181-241 | with any number of runs sharing one outbox of 64, several of one task included, each run's messages are ACCEPTED, RUNNING, then only logs, items, artifacts and captcha notices of its task, then one terminal update and nothing after it |
| WorkerOutbox.OutboxIsBounded | internal/runner/worker.go:60-64 | the outbox never holds more than 64 messages |
| RunEvents.EventsAreSent | internal/runner/executor.go:188-216 | over any runs of one worker, a run that came to its exit has sent exactly the items and screenshots of its readable stream, each once and in order, and one that never started its process none |
| ItemDelivery.StoredItems | internal/hub/hub.go:239-249 | over one connection, for a task assigned once with everything about it delivered and persisted, the store gets exactly the items before the first captcha of the readable stream, in order |
| ItemDelivery.AllItemsStoredIff | internal/hub/hub.go:228-249 | which is everything scraped exactly when no item follows a captcha |
| WorkerSlots.SlotsAddUp | internal/runner/worker.go:181-231 | in every interleaving of starting, ending and cancelling, free slots are the concurrency less the runs holding one, an idle worker has them all back, and the cancel table only ever names a live run of that very task |
| WorkerSlots.CancellableIff | internal/runner/worker.go:188-231 | over any run every live run of a task can be cancelled at every moment exactly when none ever goes live while another of its task is |
| WorkerSlots.CancelReaches | internal/runner/worker.go:224-231 | then a cancel reaches exactly the task's live run |
| WorkerSlots.DuplicateLosesCancel | internal/runner/worker.go:190-200 | a run from the start: a task assigned twice, the first run ended, and a live second run whose cancel does nothing |
| WorkerSlots.Worker.StartTask | internal/runner/worker.go:181-194 | three steps of that machine, then ACCEPTED and RUNNING |
| WorkerSlots.Worker.Finish | internal/runner/worker.go:197-219 | the final update, then the run's bookkeeping undone step by step |
| WorkerSlots.Worker.CancelTask | internal/runner/worker.go:224-231 | the machine's cancel step |
| WorkerTeardown.ReconnectsIff | internal/runner/worker.go:126-162 | at every point of every run, over any number of connections, the worker can still return from the connection exactly when the pump goes on or the outbox has room for all that the heartbeat and the receive loop are about to send |
| WorkerTeardown.TeardownEnds | internal/runner/worker.go:140-162 | after the receive has ended, with runs and ticks silent, every teardown stops within as many steps as the outbox holds plus six, and then has returned or has the pump gone, the outbox full and the heartbeat waiting, and in no other state |
| WorkerTeardown.HangHappens | internal/runner/worker.go:243-274 | a run from the start to that state |
| RunDelivery.RunningThenTerminal | internal/hub/hub.go:204-230 | whatever prefix was delivered and whichever writes failed, a task's running writes all come before its terminal ones |
| RunDelivery.RowFollowsRun | internal/hub/hub.go:189-230 | over one connection, assigned once and not cancelled by a user, the row never goes back to running after a terminal write and, once all the run's messages are delivered with others among and after them and the last is persisted, shows the run's cause: cancelled, timed out, blocked with the last captcha's message, failed with the last logged error, or succeeded |
| RunDelivery.CaptchaIsNeverRetried | internal/runner/executor.go:670-692 | a run whose readable stream holds a captcha event, neither cancelled nor past its deadline, ends in exactly its last interim captcha notice, and none of its updates adds a row, whatever the configs |
| VenvInstall.InstallsExclude | internal/runner/executor.go:413-424 | in every interleaving the tasks past the lock of one hash are one task |
| VenvInstall.InterpreterMeansBuilt | internal/runner/executor.go:426-472 | an interpreter under a free lock comes from an install both of whose uv steps succeeded, and per hash at most one install did not fail |
| VenvInstall.ReturnedPathIsBuilt | internal/runner/executor.go:393-472 | a returned path names a finished install of the task's own hash, now and after anything else, and the hash is never installed again |
| VenvInstall.NeverStuck | internal/runner/executor.go:413-424 | while a task has not returned, some task of its hash can move |
| DepsInstall.CallIsAPath | internal/runner/executor.go:423-472 | what one call leaves in the directory, for every outcome of mkdir, the uv commands and the last stat, is a path through the shared machine |
| DepsInstall.Executor.ResolveInterpreter | internal/runner/executor.go:393-472 | a venv path comes back exactly when the interpreter was there or mkdir and both uv commands worked and it is there after them; otherwise the first error; what the directory holds then; the `[deps]` lines; and that only the requirements' own directory changes |
| DepsInstall.FailureIff | internal/runner/executor.go:434-472 | an install fails exactly when one of its steps does, with the first failing step's error |
| DepsInstall.RunUvStreamed | internal/runner/executor.go:483-563 | a command fails exactly when it did not run or exited with an error; each line of a pipe up to its first over-long one is forwarded in order; and the error carries the last five stderr lines read that say something, or the exit error when none does, or says that uv did not start |
| DepsInstall.SaidPlaces | internal/runner/executor.go:525-563 | the stderr lines kept are those, in order, that are not all white space and have no over-long line of their pipe up to them |
| DepsInstall.ReadPlaces | internal/runner/executor.go:552-563 | the lines read of the two pipes are those, in order, with no over-long line of their pipe up to them |
| DepsInstall.LineTail.Add | internal/runner/executor.go:534-544 | blank lines are dropped and the newest lines kept up to the limit |
| DepsInstall.TailNext | internal/runner/executor.go:534-544 | feeding lines one at a time keeps the last lines of all that say something |
| DepsInstall.VenvPathInjective | internal/runner/executor.go:408-411 | two hashes never share a directory |
| LogPipeline.LogConservation | internal/hub/sinks.go:83-176 | in every interleaving of the flusher and any number of Writes of the task under way, each published line is once in its Write or written, the written ones are in order in the object, in flight or in the buffer exactly when no append overwrote the object after a failed download, and pending level counts match the pending lines |
| LogPipeline.WrittenInOrderIff | internal/hub/sinks.go:96-113 | with each Write numbered as it published, the numbers written are 0, 1, 2, ... exactly when always the oldest pending Write entered the buffer, and the written and then the pending lines are then the published ones |
| LogPipeline.LinesInOrderIff | internal/hub/sinks.go:96-113 | where no two lines are equal, that is also exactly when the written lines are a prefix of the published ones |
| LogPipeline.OvertakingHappens | internal/hub/sinks.go:96-113 | a run of two Writes of one task whose lines are written in the other order |
| LogPipeline.OneWriterConservation | internal/hub/sinks.go:83-176 | with one read loop at a time for the task, all published lines are in that order in the object, in flight, in the buffer or in the Write exactly when nothing was overwritten |
| LogPipeline.TruncationHappens | internal/storage/minio.go:85-108 | a run in which lines are lost that way, for any task and lines |
| LogPipeline.CountsAfterWrite | internal/hub/sinks.go:109-112 | a write keeps every level count equal to the pending lines of that level |
| LogPipeline.CountsAfterPutBack | internal/hub/sinks.go:147-158 | so does merging a failed flush back in front of newer lines |
| LogPipeline.LostIffTruncated | internal/storage/minio.go:96-108 | a task's lost lines grow in a run exactly when such an overwrite happens in it |
| LogPipeline.IndexLedger | internal/hub/sinks.go:162-175 | in every run the index differs from the object by exactly what was overwritten, what an upsert failed for and what is about to be upserted |
| LogPipeline.IndexAgreement | internal/repository/artifacts.go:74-86 | without truncation the index never claims more bytes or lines than the object has, and equals it exactly when no upsert has failed and none is due |
| LogSink.FlushIsARun | internal/hub/sinks.go:129-176 | a flush with nothing beside it is a run of the pipeline machine |
| LogSink.Sink.Write | internal/hub/sinks.go:102-114 | the buffer gains the line at its end and its level's count, other tasks' buffers are untouched |
| LogSink.Sink.FlushTask | internal/hub/sinks.go:129-176 | buffer, object and index row of the task after each outcome of the three remote calls, and every other task's untouched |
| LogSink.Sink.FlushAll | internal/hub/sinks.go:117-127 | every buffered task is flushed once, each with its own outcome |
| LogSink.LogKeyInjective | internal/hub/sinks.go:178-180 | two tasks never share a log object |
| LogSink.DigitsSpell | internal/hub/sinks.go:178-180 | the digits in a log key spell the task id |
| ObjectStore.Bucket.AppendJsonl | internal/storage/minio.go:85-108 | the object after read, extend and overwrite, including a failed read taken for absence and a failed upload |
| Jsonl.DecodeEncode | internal/api/tasks/tasks.go:302-306 | trimming the last newline, splitting and dropping empties gives back the appended lines |
| Jsonl.RoundTripIff | internal/storage/minio.go:81-94 | for any lines the round trip is exact if and only if every line is non-empty and newline-free |
| Jsonl.EncodeConcat | internal/storage/minio.go:85-94 | appending in batches gives the same object as appending at once |
| LogViewer.ViewerCoverage | internal/api/tasks/tasks.go:243-291 | for any run before subscribing, until the history read and after it, the viewer is sent the written lines up to H and then every published line from S on, so nothing published after subscribing is missed; while Writes keep the published order the repeats are [S,H) and a gap is [H,S) |
| LogViewer.ExactlyOnceIff | internal/api/tasks/tasks.go:243-291 | the viewer sees every line exactly once precisely when the replay holds the lines published before it subscribed, and, with nothing overwritten and the published order kept, in order precisely when H equals S |
| LogViewer.NoHistoryIff | internal/api/tasks/tasks.go:293-301 | in every run a viewer gets no history exactly when the download fails or no index upsert of the task has succeeded |
| LogViewer.StoredButNotReplayed | internal/api/tasks/tasks.go:293-301 | a run after which the object holds a line and the viewer gets no history |
| LogViewer.Browse | web/src/hooks/useTaskLogStream.ts:55-80 | after any frames the rows are the last cap lines of all frames under their numbers from 1, a line that parses with its fields and any other as an INFO message |
| LogViewer.Window.OnMessage | web/src/hooks/useTaskLogStream.ts:55-80 | one frame's non-empty lines are numbered on and appended, the oldest rows beyond the cap dropped, each row with its line's fields or as an INFO message |
| NotifyCache.BoundedStaleness | internal/notify/notify.go:223-250 | in every interleaving of readers, mutations and time, a returned list was the repository's enabled list less than 5 s plus the slowest read ago |
| NotifyCache.SettlesAfterAWrite | internal/notify/notify.go:223-250 | once the repository has been left alone that long every reader gets its list |
| NotifyCache.WriteShowsIff | internal/notify/notify.go:147-250 | after a mutation's write, in every continuation up to the next write, everyone answered, and everyone who looks up, gets the new list exactly when at the write the memo was dead or equal to it and no reader was about to store another |
| NotifyCache.WriteCanStayHidden | internal/notify/notify.go:147-180 | a run in which a reader gets the old list at once after a finished mutation, because invalidation comes before the write |
| Notify.Service.Enabled | internal/notify/notify.go:223-242 | one caller at a time, the memo is never out of date and is kept or replaced as its age says |
| Notify.Service.Create | internal/notify/notify.go:129-149 | which input is rejected with which error and nothing changed, a failed INSERT that only drops the memo, and the channel stored otherwise |
| Notify.Service.Update | internal/notify/notify.go:159-175 | when each error comes back and what it leaves, an unknown id and a failed database call dropping the memo and an empty address passing, and which channel is replaced by what otherwise |
| Notify.Service.Delete | internal/notify/notify.go:177-180 | exactly that channel is gone, or on a failed DELETE none, and the memo dropped either way |
| Notify.Service.Notify | internal/notify/notify.go:197-219 | the channels an event goes out to, none when the list cannot be loaded |
| Notify.ToldIff | internal/notify/notify.go:203-206 | a channel is told of an event exactly when it is enabled and subscribed |
| Notify.ToldOnce | internal/notify/notify.go:203-206 | nobody is told twice |
| Utf8.TruncateErr | internal/runner/executor.go:587-596 | the text itself within the limit, else cut at the last character start up to it with an ellipsis, and exactly when the loop would index below zero |
| Utf8.TruncationIsSafe | internal/runner/executor.go:587-596 | valid text is cut at most 3 bytes back, to the longest valid prefix of at most n bytes, and the result is valid and at most n + 3 bytes |
| Utf8.PlainCutIff | internal/runner/executor.go:136-139 | the plain cut of install errors is valid exactly when it lands on a character boundary |
| Utf8.PlainCutSplits | internal/runner/executor.go:136-139 | at every limit above zero a valid text it splits |
| Utf8.EncodeIsValid | internal/runner/executor.go:552-563 | code points encode to valid text of one to four bytes each, which is what the line limit counts |
| Utf8.ValidIff | internal/runner/executor.go:587-596 | text is valid exactly when it is the encoding of some code points |
| Text.BlankIff | internal/runner/executor.go:534-537 | a line trims to nothing exactly when it is all white space |
| Text.TrimIs | internal/task/retry.go:80-92 | trimming takes exactly the white space off both ends |

## Left out

- HubLedger.SlotLedger: assumes no heartbeat, no assignment of a task the hub already has down, and a release only of a task the session runs (`Disciplined`), because heartbeats overwrite the counter, a row can be assigned twice before a worker reports, and a captcha run reports a terminal state twice.
- RunDelivery.RowFollowsRun: assumes no user cancel of the row and one assignment of the task over one connection (`AssignedOnce`), because the status write is unconditional and a later write replaces an earlier one.
- ItemDelivery.StoredItems: assumes one assignment of the task over one connection (`AssignedOnce`), an index entry for it when the first message comes, and that every message about it is persisted, because each failed write loses its own item.
- NotifyCache.BoundedStaleness: the slowest read is measured from the repository's answer to the store, with one clock for all.
- TaskLifecycle.RetryPacing: a worker reports only rows it was handed (the guard of the step `Report`); the database and the master share one monotone clock; a decided delay may be negative after an overflow and is then counted as such.
- VenvInstall.InterpreterMeansBuilt: assumes no crash, that removing a directory succeeds and that only this process touches the venv directory; two requirement files with the same first 16 hex digits of their digest share a venv.
- RetryPolicy.PolicyFromSpiderConfig: config numbers are int64 values after conversion; converting a float outside that range is platform-defined.
- TaskService.Service.DispatchRow: the configuration, arguments and timeout of the assignment message are left out; like the source it takes the spider's current source key, not the row's version.
- LogPipeline.IndexAgreement: per-level totals in the index, where the upsert replaces a level's value instead of adding to it.
- LogPipeline.OneWriterConservation: assumes one Write of the task at a time (`OneWriter`); without it only the written order is kept.
- LogViewer.Browse: whether a line parses is a parameter, and a closed or slow socket is left out. Pubsub is assumed to deliver.
- ObjectStore.Bucket.AppendJsonl: a failed upload is assumed to leave the object as it was.
- DepsInstall.RunUvStreamed: a process left blocked on a pipe nobody reads any more is not modelled.
- WorkerRun.PumpEvents: JSON decoding; events are parsed values with a malformed case, time stamps and screenshot sizes are dropped.
- WorkerSlots.CancelReaches: assumes that no run of a task goes live while another of it is (`EverDoubles`), because otherwise a cancel can miss.
- WorkerHub.Hub.CancelRunning: the method is the call with nothing beside it; what can come between its look-up and its send is in `HubLedger.CancelMeetsClosedIff`.
- TaskService.Service.DispatchOnce: one clock reading serves a whole pass; a failed ListQueued is a pass that does nothing.
- WorkerTeardown.ReconnectsIff: says when a return is still possible, not that the scheduler takes it; `WorkerTeardown.TeardownEnds` says so while no run sends and no tick comes. How many runs wait for room is left out, since nothing waits for them.
- Which messages outlive a connection in the worker's outbox, the reconnect delays, the welcome message and the shared secret.
- gRPC, Postgres, Redis, MinIO, subprocesses, zip extraction, git and HTTP calls themselves: each is a success, a failure or a value.
- Notification texts, the test message and the webhook calls.
- `internal/schedule`, `internal/auth`, `internal/web`, configuration loading, the other API handlers, the React routes, the Python SDK, load-test and deploy scripts.
