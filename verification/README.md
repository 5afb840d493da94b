# Krypton scheduler: a verified model

The Krypton scheduler accepts requests from device management services, turns each of them
into tasks for devices, sends the tasks to the devices over MQTT, and forwards the answers of
the devices to the services. This Dafny project models its engine and proves what the engine
keeps. `dafny verify dfyconfig.toml` checks all of it.

## How the model is built

**The dispatch and response protocol** is a system of atomic steps (`Protocol.dfy`): one step
is one table statement, one queue call or one publish. A state holds the tables `tasks`,
`consignments` and `scheduled_runs`, the dispatch queue, and for every goroutine in the middle
of an operation how far it is and what it has read. The goroutines of scheduling requests, the
daemon, any number of dispatch watchers, response handlers, foreign senders, redelivery and
`RemoveTask` interleave freely. Any goroutine may stop after any step, which covers failed
calls, shutdowns, and calls that had their effect and still reported an error. A CQL `UPDATE`
is an upsert. A label carries all that a step leaves open, so a run is a sequence of labels,
and histories that only grow say what happened "before".

* `Safety.dfy`: the inductive invariant, and that every step and every run keeps it.
* `Delivery.dfy`: at-least-once delivery, to whom, and one receiver at a time.
* `Provenance.dfy`: where every status comes from; what a response can change.
* `ConsignmentHistory.dfy`: the status of a consignment row, and when it can turn back.
* `StatusHistory.dfy`: when a terminal status or a run does not last, and when a response is
  forwarded although its status was not written.
* `Traces.dfy`: runs as the program records them, with what each goroutine was told.

**The program** works on these tables in place, so it is written as classes and methods.
`Store.dfy` holds the tables and the queue. It records a trace: the steps everybody has taken
and, between them, the errors that calls reported and what reads found. `Valid` says that the
trace is a possible run, that whatever a read found was so at that moment, and that the trace
leads to the present state. Each method's contract names what it added, with `Interfere`
standing for any number of steps of everybody else wherever the source lets go. So every
method refines the step system, acts on what its calls told it, and the theorems about runs
hold after every call. A store says which calls may fail (`failing`); any other call fails only
for what it was given, and the contracts say what must then happen. Built on it are
`ScheduledTask.dfy` (the builder, `CreateTask`, `Schedule`), `RequestHandler.dfy` (a request
for many devices), `InputQueue.dfy` (the watcher that handles and then deletes requests, over
the step system of its queue in `InputLog.dfy`), `Daemon.dfy` (the paged sweep) and `DueRuns.dfy`
(from the instant a run is stored to the message sent for it).

**Words, messages and keys** that several parts share are stated once more without the functions
that compute them: letter by letter (`Spells`), digit by digit (`WritesInteger`, `WritesTime`) and
field by field (what a queued message, a task row, an event and a run key hold, in terms of the
request, the token, the device message and the clock).

**The schedule language.** `Plans.dfy` gives the effect of each builder call on the schedule
part of a task; the methods of the class are proved to have exactly that effect, with their
loops over times, weekdays and days of the month. `Grammar.dfy` describes the accepted
schedule texts without splitting or look-up tables, gives each its meaning, and proves that
builder, parser and validation together accept this language and produce this meaning; and it
prints schedules back.

**Smaller cores.** `RunTimes.dfy` (times of day, the sorted list and its binary search),
`Errors.dfy` (wrapping), `ClientId.dfy` (random ids), `ServiceDispatch.dfy` (the flat routing
table), `QueueUrls.dfy` (the URL cache), `Text.dfy` (lower case, split, decimal integers).

## What does not hold

Some things one might expect of the code do not hold. Where the model can say so, there is a
lemma with the situation and a theorem with the exact condition.

* A consignment row can go from completed back to queued. Over every run that happens if and
  only if the row is written for a response before the request that creates the task inserts
  it (`TurnsBackIffSettledFirst`). The guard is the match of a response with a task row whose
  consignment is still to be inserted: without such a match no row is ever turned back
  (`ConsignmentMonotone`), wherever one is possible the run can go on to turn a row back
  (`EarlyMatchCanTurnBack`), and one is possible after two steps (`EarlyResponseTurnsBack`).
* A terminal status does not imply that the token agreed with the row as it now is: removing
  the row between the read and the write of a response handler brings it back without its
  columns (`RemovalBreaksAgreement`, reachable by `RemovalRaceIsReachable`). While tokens name
  a service or a tenant, the agreement holds if and only if the row was inserted by
  `CreateTask` and not removed (`AgreesIffCreatedAndKept`).
* A broadcast need not be the only one in its request: what is rejected there is the text
  `@all` (`HandleRequest`), and a device id that is the UUID of a broadcast is published to all
  devices of the service, in any place and under the tenant of the request (`RequestGoesTo`).
* No text that begins with `at` is ever accepted (`AtIsNeverAccepted`), although the comment
  in the parser describes that form; `every 5` without a unit is accepted with no unit, and
  words after those that count are ignored (`Derives` says so).
* An error recorded by the builder is not always kept: a cron expression that does not parse
  puts its own error in its place (`BadCronForgets`). Without one, the first error recorded
  is never lost (`CallsKeepError`); and in any case the builder never returns to having no
  error (`CallsKeep`).
* A service can be sent what another service's route was made for. Queries for a service id
  are always routed right if and only if the id has no double colon and does not end in a
  colon (`SafeIffAlwaysRoutedRight`); every other id takes the route of a shorter one in some
  registry (`UnsafeIdTakesAnothersRoute`), and with both registered there is no right table
  (`ClashHasNoFlatTable`).
* A cached queue URL is right exactly when the account of the first answered call for that
  topic gives the same URL (`RightIffFirstAccountAgrees`).
* A response can be forwarded although no status was written for its task: five steps from
  the empty state, for every task and every agreeing response (`ForwardedWithoutStatus`). Over
  every run a handling leaves the status unwritten if and only if it gave the update up right
  after the match (`ForwardedUnwrittenIffGivenUp`). In the program that is a first write that
  failed without effect; the route alone decides the answer (`AnswerMatched`), so a response
  that has no queue has its status written and is then reported as an error.
* A message whose device id or task id is empty, or is no text that the driver binds to a UUID
  column, is published on every pass, never marked and never deleted; in a store where no call fails
  exactly these stay (`ProcessDispatchRequest`, `FaultlessOutcome`, `Markable`).
* The status of a task row is not monotone: marking writes unconditionally. Over every run a
  row goes from terminal back to dispatched if and only if it is marked after the outcome of
  a response was written to it (`FallsBackIffMarkedLater`). Wherever a message is published
  but not yet marked while a response for its task is about to be written, the run can go on
  so (`RaceFallsBack`), and nine steps from the empty state do it (`TerminalIsNotForEver`).
* A run is lost when another one is inserted at the same stored instant: over every run a run
  is there if and only if it was inserted and no other was inserted at its instant since
  (`RunIsHeldIffNotOverwritten`), and two requests are enough to lose one (`RunIsOverwritten`).

## Model

| member | source | states |
|---|---|---|
| Delivery.AtLeastOnce | service/queuemgr/sqs_provider/dispatch_queue.go:37-119 | after every run, with any interleaving and failures, each well-formed message ever accepted is still on the queue, unchanged, or was published to v1/{device}/tasks, a broadcast to v1/@devices/{service}, and its task marked dispatched |
| Delivery.RemovedOnlyAfterPublishAndMark | service/queuemgr/sqs_provider/dispatch_queue.go:52-85 | whenever a well-formed message leaves the queue, the goroutine that deletes it earlier in the run published it and after that marked it, in this order |
| Delivery.OneReceiverAtATime | service/queuemgr/sqs_provider/msg_utils.go:14-37 | over every run, between two receipts of one message, by whomever, its visibility timeout ran out |
| Delivery.PublishesOnlyAccepted | service/queuemgr/sqs_provider/dispatch_queue.go:52-56 | nothing is ever published but a message the queue accepted, and only to v1/{device}/tasks, a broadcast only to v1/@devices/{service} |
| Delivery.TopicsAreDisjoint | service/mqtt/topics.go:28-36 | two devices never share a topic, a device and a broadcast never do, and a broadcast topic determines its service |
| Safety.StepKeepsInv | service/queuemgr/sqs_provider/dispatch_queue.go:37-119 | every step of every goroutine keeps the protocol invariant |
| Safety.RunKeepsInv | service/queuemgr/sqs_provider/dispatch_queue.go:37-119 | so does every run, from any state that has it |
| Provenance.StatusProvenance | service/db/update_task.go:8-60 | a row only holds queued, dispatched, completed or failed; dispatched implies an earlier publish for it; completed (failed) implies an earlier authenticated response from its own device that spells complete or success (failed or error) in any letter case, whose token agrees with the row unless the row was removed |
| Protocol.OutcomeIffSays | service/scheduler/task_response.go:57-68 | a status text leads to completed, or to failed, exactly if it spells one of the two words for it, letter by letter, and to nothing otherwise |
| Provenance.UnremovedRowsAgree | service/scheduler/task_response.go:27-68 | for a row that was never removed, the token of that response agrees with the row's service and tenant |
| Provenance.AgreesIffCreatedAndKept | service/scheduler/task_response.go:27-68 | over every run, if tokens name a service or a tenant: a terminal row has a response with that outcome whose token agrees with the row as it is, if and only if the row was inserted by CreateTask and not removed |
| Provenance.RemovalBreaksAgreement | service/db/update_task.go:34-41 | removal between read and write leaves a terminal row that no response agrees with |
| Provenance.RemovalRaceIsReachable | service/db/remove_task.go:9-48 | three steps from the empty state lead to that situation |
| Provenance.ForwardsOnlyAgreed | service/scheduler/task_response.go:77-122 | an event sent to a service comes from an authenticated response to a task of that service and tenant; it carries that task's consignment and, field by field, what the token and the response say |
| Provenance.RowChangeHasCause | service/db/update_task.go:34-60 | over a whole run, a row only changes by its creation, its removal, a mark for a message naming it, or a write for a response of its own device naming it |
| Provenance.ConsignmentChangeHasCause | service/db/create_consignment.go:9-60 | over a whole run, a consignment row only changes by the insert for its own task's creation or a write for a response that agreed with its own task |
| Provenance.ResponseIsolation | service/scheduler/task_response.go:27-75 | however one handling of a response is interleaved with others, its own steps change at most the status of the row keyed by the token's subject and the task id, and one consignment row, that of this task as the handler read it; queue, runs and publications stay |
| Provenance.BroadcastNeverFinishes | service/db/task_model.go:198-210 | while no token has the broadcast UUID as subject, a broadcast task is never completed or failed |
| ConsignmentHistory.ConsignmentFollowsTask | service/db/update_task.go:8-32 | a consignment row never holds dispatched, and is completed or failed only for an authenticated response that spells a word for it, to the task of this very tenant, consignment and task id, whose token agreed with the task row and after that row was written with that status; also when the second write of an update can fail |
| ConsignmentHistory.FinishedAfterStep | service/db/create_consignment.go:9-60 | after a step a row is finished if and only if the step wrote it for a response, or it was finished and the step is not its own insert |
| ConsignmentHistory.TurnsBackIffSettledFirst | service/db/create_consignment.go:9-60 | over every run from the empty state, a row is finished and later is not if and only if a write of it for a response comes before its insert |
| ConsignmentHistory.ConsignmentMonotone | service/db/create_consignment.go:43-60 | in runs where no response is matched with a task row while its consignment is still to be inserted, a finished row stays finished for ever; responses that are turned down do not matter |
| ConsignmentHistory.EarlyMatchCanTurnBack | service/db/create_task.go:34-60 | wherever such a match is possible, the run can go on to finish the row and turn it back |
| ConsignmentHistory.EarlyResponseTurnsBack | service/db/create_task.go:34-60 | a run of six steps from the empty state, for any task and any response that agrees with it, ends with a finished row turned back to queued |
| StatusHistory.TerminalAfterStep | service/db/update_task.go:34-60 | after a step a row is terminal if and only if the step wrote the outcome of a response to it, or it was terminal and the step neither marks, inserts nor removes it |
| StatusHistory.FallsBackIffMarkedLater | service/db/update_task.go:34-60 | over every run from the empty state, a row is terminal and later dispatched if and only if it is marked for a message after the outcome of a response was written to it |
| StatusHistory.RaceFallsBack | service/db/update_task.go:34-50 | wherever one goroutine has published a message and another has matched a response to its task, the run can go on so that the row falls back |
| StatusHistory.TerminalIsNotForEver | service/db/update_task.go:34-50 | nine steps from the empty state do so, for every task that runs once and every response that agrees with it |
| StatusHistory.RunIsHeldIffNotOverwritten | service/db/create_scheduled_run.go:17-39 | over every run from the empty state, the table holds a task's run at an instant if and only if it was inserted there and no other task's run was since |
| StatusHistory.RunIsOverwritten | service/db/schema/2_scheduled_runs.up.cql:3-9 | a run from the empty state, for any two tasks, in which the run of the first is there and later lost to that of the second |
| StatusHistory.ForwardedUnwrittenIffGivenUp | service/scheduler/task_response.go:56-122 | over every run, a handling that forwards an event has left the status of the task unwritten if and only if it gave the update up right after the match |
| StatusHistory.ForwardedWithoutStatus | service/scheduler/task_response.go:69-122 | five steps from the empty state forward the event of any agreeing response while its outcome was never written |
| Traces.ReachedByExec | service/queuemgr/sqs_provider/dispatch_queue.go:15-32 | a trace recorded by the program is a run of the step system |
| Traces.ReachedKeepsInv | service/queuemgr/sqs_provider/dispatch_queue.go:15-32 | every state the program reaches has the protocol invariant |
| Traces.OthersInterfere | service/queuemgr/sqs_provider/dispatch_queue.go:15-32 | whatever others do, a goroutine's own steps, what it was told and its stage stay, and nothing is forgotten |
| Traces.OwnNoteWasTrue | service/db/get_task_by_device.go:42-79 | what a goroutine's read found was so at a moment of the whole run, namely when that goroutine had done exactly what it did before the read, and not before any moment that it read after |
| Traces.EnqueuedIsAccepted | service/db/task_model.go:152-177 | whatever others do, the message a goroutine queued for a task it created carries that task |
| Traces.RunIsAccepted | service/scheduler/daemon.go:59-92 | whatever others do, the message a goroutine queued for a due run carries the task as it was created, unless its row was removed |
| Stores.Store.ProcessDispatchRequest | service/queuemgr/sqs_provider/dispatch_queue.go:37-119 | one pass takes exactly the steps of its outcome: receive, publish, mark, delete in this order, stopping at the first call that reports an error, and deleting what does not decode; that call is one that may fail, or a mark for ids the update rejects; a message with such ids is neither marked nor deleted; without faults the outcome is determined by the message |
| Stores.Store.Dispatch | service/queuemgr/sqs_provider/dispatch_queue.go:52-85 | the goroutine's trace is a publish, a mark and a deletion up to the first call that reported an error, and that error; so the mark comes only after a publish without an error, the deletion only after such a mark; neither happens for ids the update rejects |
| Stores.Store.ReceiveMessage | service/queuemgr/sqs_provider/msg_utils.go:14-37 | receives one visible message and hides it, or hides it and loses the reply; without faults none only if none is visible |
| Stores.Store.SendTaskToBroker | service/queuemgr/sqs_provider/dispatch_queue.go:52-64 | a call that succeeds has published the message to the topic given, and one that fails may have |
| Stores.Store.MarkTaskDispatched | service/db/update_task.go:34-50 | fails without a write exactly for ids that are empty or that the columns do not take, as far as no call fails by itself; else upserts the status |
| Stores.Store.HandleTaskResponse | service/scheduler/task_response.go:15-125 | the first failing check decides the error, where the row checked is the one the table holds under the token's subject and the task id; a response that passes and spells complete or success puts completed in the row's history, failed or error puts failed, unless that write failed without effect; then, whatever became of the writes, the route decides: without a queue or for an unknown service an error, else an event is sent that holds, field by field, what token, message and row say, and only the sending can fail |
| Stores.Store.AnswerMatched | service/scheduler/task_response.go:56-124 | whatever became of the status writes, with a route to a known service the response is sent, and the only error is that of the sending; without one nothing is sent and the error names the reason |
| Stores.Store.GetTaskForResponse | service/db/get_task_by_device.go:42-79 | the row under the token's subject and the task id; else the error for ids that are refused, for ids the query cannot take, or for a row that is not there |
| Stores.Store.UpdateTaskStatus | service/db/update_task.go:8-32 | the goroutine's trace is the write of the task row and, if that call reported no error, the write of the consignment row, with the error reported, which only a call that may fail reports; success is both without an error |
| Stores.Store.UpdateConsignmentTaskStatus | service/db/create_consignment.go:43-60 | writes the status of exactly that consignment row, or nothing |
| Stores.Store.SendDispatchMessage | service/queuemgr/sqs_provider/dispatch_queue.go:121-134 | queues, under a new message id, a message with the device and task id, service, tenant, message id, type and payload of the task the goroutine carries |
| Stores.Store.RemoveTask | service/db/remove_task.go:9-48 | removes that row only |
| ScheduledTasks.ScheduledTask.constructor | service/scheduler/api.go:26-50 | a fresh schedule; service, message fields and run information exactly when the device id parses, else a recorded error and those fields empty |
| ScheduledTasks.ScheduledTask.SetSchedulingUnit | service/scheduler/scheduling_units.go:125-132 | sets the unit, or records an error and keeps Duration or Crontab |
| ScheduledTasks.ScheduledTask.AddRunAtTime | service/scheduler/time_utils.go:48-71 | search, append, shift and write amount to insertion into a sorted set |
| ScheduledTasks.ScheduledTask.AtTexts | service/scheduler/api.go:55-72 | inserts the times before the first bad entry, and records the time format error exactly if there is one |
| ScheduledTasks.ScheduledTask.Every | service/scheduler/api.go:106-115 | stores the interval; zero and negative ones record an error |
| ScheduledTasks.ScheduledTask.EveryText | service/scheduler/api.go:122-132 | a text that is no duration leaves zero, the unit Duration and an error |
| ScheduledTasks.ScheduledTask.Cron | service/scheduler/api.go:143-178 | unit Crontab whatever was set before; an expression that does not parse with its time zone replaces the recorded error |
| ScheduledTasks.ScheduledTask.Months | service/scheduler/scheduling_units.go:231-274 | appends the days whatever they are, records the errors of `MonthDayErrors` in order, and chooses months unless the unit is locked |
| ScheduledTasks.ScheduledTask.CheckMonthDays | service/scheduler/scheduling_units.go:242-264 | the nested loops with their breaks record exactly the errors of the specification: one for each stored day, and a last one for the first day out of range or repeated |
| ScheduledTasks.ScheduledTask.ParseDaysOfMonth | service/scheduler/scheduling_units.go:213-225 | all the integers of the list, or nothing and the error of the first that is none |
| ScheduledTasks.ScheduledTask.OnWeekday | service/scheduler/scheduling_units.go:282-292 | adds the weekday once and chooses weeks |
| ScheduledTasks.ScheduledTask.ParseSchedule | service/scheduler/scheduling_units.go:43-122 | the imperative parser has the effect of the parse function on any builder, and keeps the builder's invariant |
| ScheduledTasks.ScheduledTask.CheckPlan | service/scheduler/api.go:184-205 | the checks add exactly the errors of an unfit plan, weekday error first |
| ScheduledTasks.ScheduledTask.CreateTask | service/db/create_task.go:12-69 | task row, then, only if that insert reported success, the consignment row; success is both without an error, and a failure is due to an unfit tenant id or payload (nothing touched), a missing consignment id (task row only), or an insert that reported an error, and says so |
| ScheduledTasks.ScheduledTask.Schedule | service/scheduler/api.go:181-261 | nothing is touched when the plan is not schedulable or tenant id or payload are unfit, and in the first case the error is the builder's; success means both rows and exactly one of a dispatch message (unit Once), which says field by field what the task was built from, and a run, which the table then holds under the date of the clock and its millisecond; a failure is that of the first call that reported one, and only calls that may fail do; so without faults every storable, schedulable task succeeds |
| ScheduledTasks.RunsKeepTheOrder | service/db/create_scheduled_run.go:13-18 | runs stored for instants of one day are in one partition and in the order of their instants, to the millisecond |
| ScheduledTasks.IsIn | service/scheduler/time_utils.go:36-46 | the scan with a flag decides membership |
| ScheduledTasks.ParseKeeps | service/scheduler/scheduling_units.go:43-122 | parsing any text keeps run times increasing within the day and weekdays distinct, and an error never becomes none |
| RequestHandling.HandleRequest | service/scheduler/request_handler.go:18-151 | rejected, with nothing touched, exactly for an unknown source, a service not registered, no consignment id, no device ids, a broadcast with company, a tenant id that is no UUID (without a broadcast) or no payload; else every task row it makes has the columns of the request, so a registered service, every message it queues says what the request says, and the reply and the steps are as `RepliesWell` says: each id counted once, successes at most the acceptable ids and equal to them without faults, tasks reported to REST only |
| RequestHandling.EverythingIsCarried | service/scheduler/request_handler.go:93-141 | whatever others do meanwhile, each task row inserted for a request was created with its service, tenant, consignment, message id, type and payload, and each message queued says them |
| RequestHandling.RequestGoesTo | service/mqtt/topics.go:28-36 | a message queued for `@all`, or for the UUID of a broadcast, is published to v1/@devices/{the request's service} only, for any other device id to v1/{that id}/tasks only |
| RequestHandling.HandleDevices | service/scheduler/request_handler.go:93-141 | after the loop counters and list agree with the outcomes of all device ids, in order |
| RequestHandling.HandleDevice | service/scheduler/request_handler.go:93-140 | a broadcast id after the first one is an error that creates nothing; any other id is scheduled and counted |
| RequestHandling.SuccessesAreAcceptable | service/scheduler/request_handler.go:93-141 | successes never exceed the acceptable ids (a UUID or a leading broadcast id, with a schedule of the language), and equal them without faults |
| RequestHandling.ReportsOnRequest | service/scheduler/request_handler.go:124-133 | as many tasks are reported as counted, and their devices are a subsequence of the request |
| InputQueue.InputWatcher.ProcessMessage | service/queuemgr/sqs_provider/input_queue.go:37-119 | one call takes one visible message, answers its request as the handler does, and tries to delete it, whatever the answer; one that does not decode is deleted unhandled; this is all the call adds to the watcher's log; no message is taken without a fault only if none is visible |
| InputLogs.InputAtLeastOnce | service/queuemgr/sqs_provider/input_queue.go:37-119 | after every run of services, timeouts and watchers, each message that decodes is on the queue or was given to the handler |
| InputLogs.DisposedOnlyAfterReply | service/queuemgr/sqs_provider/input_queue.go:37-119 | a watcher that deletes a message took it and, if it decodes, had its request answered, and did nothing else between; one that does not decode was never handled |
| InputLogs.OneHolderAtATime | service/queuemgr/sqs_provider/msg_utils.go:14-37 | a message of the input queue that was taken is not taken again before its visibility timeout ran out |
| InputLogs.OthersLeaveHeld | service/queuemgr/sqs_provider/input_queue.go:14-32 | whatever others do, a watcher's own events and the message it holds stay, and nothing accepted or answered is forgotten |
| Daemon.GetScheduledRuns | service/db/get_scheduled_run.go:14-45 | the next rows of the partition, at most a hundred; an empty position at the end and after a failure |
| Daemon.Sweep | service/scheduler/daemon.go:35-99 | the rows the table holds in the partition are visited in order, each at most once, across all pages, and all of them unless a query for a page fails or the daemon is told to stop; each is sent unless its task was removed or a call that may fail did; the cursor is empty afterwards |
| Daemon.PartitionIsUnique | service/db/get_scheduled_run.go:22-36 | the table and the partition determine the rows and their order |
| Daemon.RunSchedulerDaemon | service/scheduler/daemon.go:15-109 | for each reading of the clock one sweep over all the rows the table then holds in that partition, from its beginning, also after a failed page query, whatever others do between the sweeps; only a daemon told to stop leaves a sweep early |
| Daemon.SweepsAreOfTheTable | service/scheduler/daemon.go:35-44 | the rows of each sweep are the partition as it was in the table at a moment of the whole run, namely when the daemon had done the earlier sweeps and nothing since, and not before any moment the sweep began after |
| Daemon.SweepSendsAll | service/scheduler/daemon.go:46-94 | without faults a sweep that came to its end sent every run of the partition, exactly once and in order, if no task of theirs was removed; any sweep sends only runs of the partition, none twice or out of order |
| Daemon.VisitRow | service/scheduler/daemon.go:59-92 | a found task is sent unless a call that may fail does, and the message carries its row as it was created, unless that was removed; a failed lookup, encoding or sending leads to the next row; only a removed task is not found |
| Daemon.AllSentMeansAll | service/scheduler/daemon.go:46-94 | when no call fails and no task was removed, exactly the rows visited are sent, in order |
| Daemon.SentInOrder | service/scheduler/daemon.go:46-94 | with faults some are missing, but none is sent twice or out of order |
| DueRuns.StoredRunIsSwept | service/scheduler/daemon.go:35-94 | a run stored at an instant, and not replaced, is among the rows of every later sweep of the date of that instant; a sweep that ends without faults sends it unless its task was removed |
| DueRuns.SentRowCarriesTask | service/scheduler/daemon.go:59-92 | whatever others do, each message a sweep sent carries, column by column, the task of its row as it was created, unless that was removed |
| Grammar.AcceptsExactlyTheLanguage | service/scheduler/scheduling_units.go:43-122 | a fresh builder passes the validation if and only if the grammar derives the text; the grammar reads words letter by letter, in either case, and integers digit by digit |
| Grammar.GivesTheMeaning | service/scheduler/scheduling_units.go:43-122 | and then unit, interval, duration, weekdays, month days and run times are the grammar's meaning |
| Grammar.CapitalsDoNotMatter | service/scheduler/scheduling_units.go:66-83 | two texts whose words are the same but for capitals in the keyword and the unit word have the same effect on any builder |
| Grammar.RejectionNamesTheFault | service/scheduler/scheduling_units.go:57-120 | the error left on a fresh builder: invalid schedule type for one word that is not now, for an unknown keyword and for monthdays without days, invalid unit for an unknown unit word, invalid interval for one below 1 |
| Grammar.Unambiguous | service/scheduler/scheduling_units.go:43-122 | a text derives at most one schedule |
| Grammar.AtIsNeverAccepted | service/scheduler/scheduling_units.go:109-112 | a text whose first word is `at` always fails the validation |
| Grammar.PrintThenParse | service/scheduler/scheduling_units.go:43-122 | printing a schedule and parsing the text gives the schedule and its meaning |
| Grammar.AcceptedIsPrintable | service/scheduler/scheduling_units.go:43-122 | every accepted text has a printed form with the same result |
| Grammar.ParseDaysOfPrinted | service/scheduler/scheduling_units.go:213-225 | parsing undoes joining decimal days with commas, over all 64-bit integers |
| Grammar.LookupIffNames | service/scheduler/scheduling_units.go:15-36 | the unit table agrees with the words of the grammar, in both directions |
| Plans.CallsKeep | service/scheduler/scheduling_units.go:125-132 | over every sequence of builder calls: run times strictly increasing and within the day, weekdays distinct, an error never becoming none, Crontab never left, Duration left only through Cron |
| Plans.ImmediateUntilPostponed | service/scheduler/scheduling_units.go:268-292 | over every sequence of builder calls: no call makes a task start immediately, and it ceases to exactly by a call for days of the month, a weekday, a start or a cron expression |
| Plans.CallsKeepError | service/scheduler/errors.go:29-35 | over every sequence of builder calls without a bad cron expression, a recorded error stays in the unwrap chain |
| Plans.BadCronForgets | service/scheduler/api.go:170-172 | after a bad cron expression only its own error and what the cron parser's error wraps are in the chain |
| Plans.MonthDayErrorsIff | service/scheduler/scheduling_units.go:231-265 | one `Months` call records no error if and only if the list is a single -1, a single day in 1..28, or two or more distinct days in 1..28 none of which is stored; a single day is not compared with the days stored |
| Plans.CheckedIffSchedulable | service/scheduler/api.go:184-205 | the checks of `Schedule` leave no error if and only if the plan is schedulable, and lose none |
| Plans.SemicolonList | service/scheduler/api.go:55-72 | the run times become the one strictly increasing list of the old times and those before the first bad entry, whatever their order or repetition |
| Plans.GoodListIsAllTimes | service/scheduler/api.go:59-72 | without a bad entry these are all the times written |
| Plans.BadListIsPrefix | service/scheduler/api.go:60-67 | with one, exactly the entries before the first bad one |
| RunTimes.Search | service/scheduler/time_utils.go:53-61 | the binary search finds the first element not smaller, and the flag written by its predicate is true exactly when the time is present |
| RunTimes.InsertIntoSorted | service/scheduler/time_utils.go:48-71 | insertion keeps the list strictly increasing and adds exactly that element |
| RunTimes.SortedIsUnique | service/scheduler/time_utils.go:48-71 | a strictly increasing list is determined by its elements |
| RunTimes.ParseTimeOfPrinted | service/scheduler/time_utils.go:16-32 | a printed time of day is read back exactly |
| RunTimes.ParseTimeIff | service/scheduler/time_utils.go:9-32 | a text is read as a time of day exactly if it writes it: one or two digits of hours, two of minutes, perhaps two of seconds |
| Errors.FoldKeeps | service/scheduler/errors.go:29-35 | an error recorded before stays in the chain whatever errors follow |
| Errors.FoldKeepsFirst | service/scheduler/errors.go:29-35 | over any sequence of errors the first one stays in the unwrap chain, in both branches |
| Errors.WrapOrErrorKeepsOlder | service/scheduler/errors.go:29-35 | one application keeps the older error and everything it wraps |
| Errors.LaterErrorSurvives | service/scheduler/errors.go:29-35 | the later error can be found by unwrapping if and only if one of the two wraps the other |
| ClientId.RandomLetters | service/mqtt/client_id.go:20-37 | the cache loop yields the first six usable six-bit groups of the word stream, low bits first, last one first; it ends when the stream holds six of them |
| ClientId.GenerateClientId | service/mqtt/client_id.go:20-41 | the application id, a dash, and those letters |
| ClientId.EveryIdIsPossible | service/mqtt/client_id.go:20-41 | every six letters are produced by some 63-bit word |
| ServiceDispatch.Dispatcher.Initialise | service/db/service_dispatch.go:25-69 | existing registrations are kept; the tables are those of the registry or unchanged; without faults every configured service with an id is valid |
| ServiceDispatch.Dispatcher.GetServiceQueueTopic | service/db/service_dispatch.go:71-79 | answers like the two-level lookup, for service ids without a double colon or a colon at the end |
| ServiceDispatch.FlatAgreesWithTwoLevel | service/db/service_dispatch.go:60-79 | the flat table agrees with service-then-topic lookup for every query with such an id, registered or not |
| ServiceDispatch.FlatIsUnique | service/db/service_dispatch.go:60-66 | the order of filling does not matter |
| ServiceDispatch.SafeIffNoShorterId | service/db/service_dispatch.go:10-12 | an id has no double colon and does not end in a colon if and only if no shorter id can share a key with it |
| ServiceDispatch.FlatKeyIsInjective | service/db/service_dispatch.go:10-12 | such ids never share a key, whatever the topics |
| ServiceDispatch.SafeIffAlwaysRoutedRight | service/db/service_dispatch.go:60-79 | queries for an id agree with the two-level lookup in every registry of such ids if and only if the id is such an id itself |
| ServiceDispatch.UnsafeIdTakesAnothersRoute | service/db/service_dispatch.go:60-79 | for every other id and every topic, a registry whose flat table gives it another service's queue where the two-level lookup gives none |
| ServiceDispatch.ClashHasNoFlatTable | service/db/service_dispatch.go:60-66 | with both services registered no flat table holds all the routes |
| ServiceDispatch.RegisterAllKeeps | service/db/service_dispatch.go:31-44 | registrations are kept, every id gets one, and a new one is a configured one |
| ServiceDispatch.RegisterAllIsIdempotent | service/db/service_dispatch.go:31-44 | registering the same configuration again adds nothing |
| ServiceDispatch.InitialiseTwice | service/db/service_dispatch.go:25-69 | without faults a second initialisation changes neither registry nor tables |
| QueueUrls.Cache.GetQueueUrl | service/queuemgr/sqs_provider/msg_utils.go:83-119 | one call answers and updates the cache as specified; a failure leaves the cache alone |
| QueueUrls.CacheHoldsFirstAnswer | service/queuemgr/sqs_provider/msg_utils.go:91-118 | after any calls the cache holds for each topic what its first answered call resolved |
| QueueUrls.AnswersLikeTheResolver | service/queuemgr/sqs_provider/msg_utils.go:83-119 | if topics keep to their account, every successful call answers what direct resolution would |
| QueueUrls.RightIffFirstAccountAgrees | service/queuemgr/sqs_provider/msg_utils.go:91-118 | without that condition, exactly when the first account gives the same URL |
| QueueUrls.ResolvedAtMostOnce | service/queuemgr/sqs_provider/msg_utils.go:91-118 | each topic is resolved successfully at most once |
| Text.AtoiOfFormatInt | service/scheduler/scheduling_units.go:73-73 | decimal integers are read back over the whole 64-bit range |
| Text.AtoiIff | service/scheduler/scheduling_units.go:73-78 | a text is read as an integer exactly if it is an optional sign and digits that denote it by their places, within 64 bits; no other text is |
| Text.SpellsIff | service/scheduler/scheduling_units.go:66-83 | the texts that lower-case to a word are exactly those that write it letter by letter in small letters or capitals, the Kelvin sign for k and the dotted capital I for i |
| Text.SplitOfJoin | service/scheduler/scheduling_units.go:57-57 | splitting undoes joining |
| Text.JoinOfSplit | service/scheduler/scheduling_units.go:57-57 | joining undoes splitting |

## Left out

- The protobuf and base64 codecs: a queue body is an encoded message or garbage, and the decoder of the input queue is a parameter. That encoding can fail is modelled.
- UUID texts, duration texts and cron expressions: uninterpreted functions (the two UUID parsers in use are two functions, and what the database takes for ids are further ones). Ids are their texts, so one id spelled in two ways is two ids here.
- Access tokens: only "valid claims or an error".
- Stores.Store.InsertTaskRow: new ids come from a generator of which it is only assumed that they are new and fit the column; columns that only record times, the retry count and the schedule columns of the row are not stored; no modelled step reads them.
- Errors.WrapOrErrorKeepsOlder: errors are compared by value, so two errors of a library with the same text are one; and the equal-named sentinel errors of the two packages are one value.
- Text.SpellsIff: lower-casing covers ASCII and the two other characters whose lower case is an ASCII letter; no other character can make a text equal to a keyword.
- RequestHandling.HandleRequest: counters are unbounded, not 32 bits wide; a nil and an empty list of device ids are both rejected, while the source indexes into an empty list that is not nil. A REST caller's HTTP status is not modelled.
- ClientId.RandomLetters: without six usable groups in the random words the loop never ends; the bound is a ghost parameter, and the random source a function.
- Daemon.Sweep: the pages of one sweep are read from the partition as it was when the sweep began; runs inserted meanwhile are not seen by it.
- Daemon.RunSchedulerDaemon: the daemon is followed for finitely many sweeps; how long it waits between them is not modelled.
- Stores.Store.MarkTaskDispatched: which ids the columns take is known to the store, not to the step system, which lets a mark succeed for any ids that are not empty. The theorems about runs so cover more runs than there are.
- Stores.Store.Interfere: a contract about everybody else's steps, with an empty body; `OthersInterfere` and, for the input queue, `OthersLeaveHeld` prove that contract of every such steps. Two calls of one goroutine never overlap.
- QueueUrls.Cache.GetQueueUrl: the cache is used by one caller at a time; the source has no lock around it.
- Stores.Store.ForwardResponse: the queue URL of a service is not looked up in the cache here; a failing lookup or encoding of the event is a failing call.
- ServiceDispatch.Dispatcher.Initialise: nil tables before the first initialisation are empty tables.
- The number behind a scheduling unit and a status: units and statuses are names.
- Consistency levels and replication of the database: a statement is one atomic step. Dead-letter redrive of the queues. Metrics, logging, REST handlers, configuration, TLS, sessions, MQTT connections.
- The lookups of tasks by device and by consignment, which only read.
