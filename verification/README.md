# FlowScale's saga engine: a model and what holds of it

FlowScale runs workflows: lists of activities, each with an optional compensation and an attempt limit. The
engine keeps no program counter. Every handler finds out where an execution is from name lookups and from the rows
of its activities, and commits one or two transactions; an outbox publisher, a broker, workers, a consumer of
results and a reaper carry messages around with at-least-once delivery. This project models that code and proves
that it amounts to a small machine: forward through the definition, bounded retries, compensation in reverse, and a
stop.

## How it is put together

| file | what it holds |
|---|---|
| `Models.dfy`, `Arithmetic.dfy`, `Keys.dfy`, `Backoff.dfy` | rows, events and messages; idempotency keys; retry tiers with 64-bit wrap-around |
| `Compensation.dfy` | the next-step function as the two loops it is, what it computes, and the undo plan |
| `Tables.dfy` | the tables of one execution as a value, every transaction on them, and the handlers as what they decide between transactions |
| `Repository.dfy`, `Engine.dfy` | `ExecutionRepo` and `Engine` as classes, statement by statement, with rollback, the global unique index, locks and the handlers' loops; each method is proved against `Tables.dfy` |
| `Consumer.dfy`, `Results.dfy`, `Reaper.dfy` | the consumer of results and its verdicts; from the handler of an activity to the engine; heartbeats and timeouts |
| `Adversary.dfy`, `Messages.dfy` | any results, timeouts, retries and cancellations, planned on stale reads and without locks; what task messages and dead letters say then, and where they go |
| `Saga.dfy`, `Refinement.dfy`, `SagaTheorems.dfy`, `Limits.dfy`, `Journal.dfy` | the ideal machine, the refinement, and what follows for whole runs; exactly which attempts occur; what the log tells |
| `Boundaries.dfy`, `Names.dfy`, `Conflicts.dfy`, `Retries.dfy`, `Crashes.dfy`, `Cancellations.dfy` | exact conditions under which the refinement is kept, and what happens outside them: attempt limits and shared names, a second outcome for one id, retries by hand, handlers cut off, cancellations |
| `Serial.dfy`, `Races.dfy` | interleaved handlers under advisory locks keyed by a hash; the calls that take no lock, and exactly when their races with a handler can be told from every serial order |
| `Outbox.dfy`, `Broker.dfy`, `Topics.dfy`, `Worker.dfy` | publisher, topology and routing with topic patterns, the worker's semaphore and wait group |
| `Delivery.dfy`, `Progress.dfy`, `Registration.dfy`, `Fairness.dfy` | the way of a task through all of these: what is lost and what never is, that executions can be finished, and that fair runs finish them |
| `Scheduler.dfy`, `Definitions.dfy` | schedules, polls and the leader lock; storing and reading definitions |

Class methods change their fields as the code changes its tables, and their contracts state the whole new state:
`View` joins the tables per execution, and a transaction is one `Put` into that view. What the contracts say is then
reasoned about on values: `Handle` is a handler run to its end, `HandleCrashed` one cut off after its first transaction.

## What is assumed

- Activity names of a definition are distinct (the database enforces it) and no compensation of an activity before the
  last is called like an activity. Nothing enforces that; `Names.StaysInSagaExactly` shows that it is exactly what is
  needed. Definitions are not edited while they run.
- A result carries the name and the execution of its row.
- Execution ids have one length, as UUIDs do (`Keys.KeysNeedOneLength` shows that this is exactly what is needed).
- Two environments. The adversarial one admits everything. In the other, each activity id has one outcome; the strong
  saga theorems hold there, for any order and repetition of deliveries. `Conflicts.ReportExactly` says which reports
  keep an execution in its saga when outcomes differ.
- There, a dead-lettered row is retried only in a FAILED execution, and a forward row only if no compensation was ever
  started. `Retries.RetryExactly` shows that the other retries are refused or leave the saga.
- There, handlers finish what they begin. `Crashes.CutOffExactly` shows that a crash between the two transactions of
  the awaited report is exactly what strands an execution.
- Attempt limits up to 64 where the saga theorems ask for `Definition`; `Boundaries.RefinesExactlyUpTo64` shows that
  this is exactly what is needed.
- Workers register activities before tasks for them are published or leave a parking queue, where a theorem speaks of
  `Needed` or `RegisteredInTime`. The broker drops what no queue is bound for, without an error;
  `Delivery.NoWorkIsLost` and `Registration.RegisteredExactly` say exactly what that loses.
- The broker keeps what it has accepted, and a publication that returned no error has arrived. The code asks for neither
  persistent messages nor confirmations (`internal/queue/rabbitmq.go:132-184`), so a broker that restarts can drop
  tasks and results; the reaper then reports their rows as failed.
- Registered names have no wildcard words that match each other (`Broker.Apart`) where tasks are said to reach one
  queue alone. `Delivery.dfy` follows a task in the queue of its own activity.
- In `SagaTheorems.RepeatsDoNotMatter` a result is delivered only for a row that exists, since only then can there be one.
- Completion times grow in commit order; the next time of a cron expression lies after the time it is asked for.

## Where code and documentation part

- `docs/how_it_works.md` says workers check the retry policy and signal the engine, and that the broker requeues a
  task for a retry. In the code the engine checks the policy and writes a new row and a delayed message.
- It says a terminally failed execution is paused as FAILED and that a retry resumes it where it left off. In the code
  it is compensated first if there is anything to compensate. A retry of the activity is accepted while compensations
  are under way and makes the execution RUNNING again with two pending rows (`Retries.RetryWhileCompensating`), is
  refused once COMPENSATED, and skips the compensation that is stuck when FAILED (`Retries.ForwardRetrySkipsCompensation`).
- It says an operator can click retry and the workflow resumes. A compensation that failed again after a retry can be
  retried only if the database happens to list its latest failure first (`Retries.RetryNeedsLatestFirst`).
- `README.md` promises that workflows survive crashes. A crash between the two transactions of a handler strands the
  execution (`Crashes.CutOffStrands`); the row is settled, so neither redelivery nor the reaper picks it up. An
  operator can bring it back exactly when the row was dead-lettered and its saga was to give up (`Crashes.RescueExactly`).
- `docs/how_it_works.md` relies on the broker's at-least-once delivery. A task published before any worker has
  registered its activity is dropped by the broker and deleted from the outbox (`Delivery.FirstTaskIsLost`); the reaper reports it as failed later.
- An ended execution can be reopened: a failure reported late for its last activity takes it from COMPLETED back to
  COMPENSATING (`Conflicts.CompletedIsReopened`), since no handler looks for a final status.
- `docs/clients.md` says that an ongoing execution can be cancelled. Cancelling one on its way forward changes its status
  and nothing that follows (`Cancellations.CancelledGoesOn`); cancelling one that compensates strands it
  (`Cancellations.CancelledStrands`).
- The reaper reports what its query found a moment ago. A report that comes after the success of its row was handled
  takes an execution that goes on out of its saga (`Conflicts.StaleTimeoutBreaks`).
- The worker's shutdown says it has drained when its wait group is at zero; a delivery that has just taken a slot is
  not counted yet and is dropped (`Worker.DrainedTooEarly`).
- The retry delay stays a power of two capped at 16 seconds only up to attempt 64 (`Backoff.TierExact`).
- `docs/how_it_works.md` says the scheduler looks every minute; the code polls every five seconds, and a backlog collapses to one start.

## Model

| member | source | states |
|---|---|---|
| `Refinement.EngineRefinesSaga` | internal/engine/engine.go:133-482 | In every run where each activity id has one outcome (delivered any number of times, in any order) and operators retry stuck work, every reachable state of the tables stands for a state of the saga machine, and every further call is exactly the machine's step for it, or changes nothing |
| `Refinement.DeliveryRefines` | internal/engine/engine.go:133-482 | The one result the engine waits for moves the machine as its outcome says; every other delivery leaves rows, status, events and outbox untouched |
| `Refinement.RetryRefines` | internal/engine/engine.go:484-645 | A manual retry resumes the stuck attempt of a failed execution, or is refused and changes nothing |
| `Boundaries.RefinesExactlyUpTo64` | internal/engine/engine.go:371-375 | All runs of deliveries refine the saga if and only if no activity allows more than 64 attempts; beyond that some run strands the execution for good |
| `Serial.RunsSerially` | internal/repository/execution_repo.go:23-59 | Any interleaving of the transactions of any number of handlers, executions and consumers ends where the calls run one after the other in the order in which they finished or were cut off; no two ever work on one execution, even if ids hash alike. Dead-letter retries and cancellations, which take no lock, fit in where they commit if they are refused, or still decide the same and strike before the handler at work reads, or before its first transaction without turning it, or after its last |
| `Serial.LockedRunsAreUndisturbed` | internal/engine/engine.go:484-556 | Runs without these two need no such condition |
| `Races.MidwayExactly` | internal/engine/engine.go:165-168 | For every definition, state and report: a retry without a lock or a cancellation between the two transactions leads where one order of the two calls leads if and only if it changes nothing, or the second transaction has no effect with it or without; whether the second was decided before or after it |
| `Races.EarlyExactly` | internal/engine/engine.go:323-482 | Between the handler's reads and its first transaction: one order explains the outcome, unless a failure for good finds compensations due and the call took the status into or out of COMPENSATING, so that the handler turns back or gives up where it should not; exactly then none does, and exactly then the serial order of the whole system does not admit it |
| `Races.TurnsExactly` | internal/engine/engine.go:517-556 | The status is taken into or out of COMPENSATING exactly by a cancellation while COMPENSATING, and by a retry that is not refused, of an activity while COMPENSATING or of a compensation otherwise |
| `Races.RefusedExactly` | internal/engine/engine.go:484-525 | A retry changes nothing and returns an error if and only if its row is not dead-lettered, the execution is COMPENSATED, CANCELLED or COMPLETED, or the next attempt exists already |
| `Races.StaleRetryExactly` | internal/engine/engine.go:484-556 | A retry decided on earlier is as good as one run whole where it commits if and only if its successor exists there, or the execution has not been completed, compensated or cancelled |
| `Races.AwaitedMidway` | internal/engine/engine.go:165-168 | In a saga, between the two transactions of the awaited report: no order of the two calls explains a cancellation, and one explains a retry if and only if it is refused |
| `Races.RacingRetry` | internal/engine/engine.go:484-556 | An instance, for every definition: the first row of a fresh execution fails for good and is retried between the two transactions of that report. The execution is left FAILED with a pending row, which neither order of the two calls does and no saga has |
| `Serial.GracefulRunsAreWhole` | internal/engine/engine.go:141-146 | If no process dies, then with nobody at work the database is that of whole handlers run one after the other, in the order in which they finished |
| `Serial.CommitIsLocal` | migrations/000002_create_execution_tables.up.sql:24 | With ids of one length the unique key, checked against all rows there are, never sees another execution's rows: a transaction reads and writes its own execution only |
| `Serial.ConcurrentEngineRefinesSaga` | internal/engine/engine.go:102-556 | Under concurrency, an execution that nobody works on is in a state of its saga, whatever happens to other executions meanwhile, if its calls ran to their ends, its results are its outcomes, and retries without a lock were refused or admissible and disturbed no handler |
| `Delivery.NoWorkIsLost` | internal/engine/outbox_publisher.go:40-79 | Whatever fails, dies or is repeated, and whatever other handlers commit, each pending row always has a task message still to be published, or a task or result in a queue or in someone's hands, if and only if no step lets the last task of a pending row go to an activity that no worker has registered |
| `Delivery.NextExactly` | internal/queue/rabbitmq.go:132-158 | The same for one step from any such state: it keeps something on its way for each pending row exactly when it is no such step |
| `Delivery.RegisteredLosesNothing` | internal/worker/worker.go:63-64 | Nothing is lost if activities are registered when their tasks are published and when these leave their parking queues |
| `Delivery.FirstTaskIsLost` | internal/engine/outbox_publisher.go:54-75 | For every definition whose first activity nobody has registered: the task is published, dropped and deleted, and its row is pending with nothing on its way |
| `Registration.RegisteredExactly` | internal/worker/worker.go:60-68 | Over all runs in which each id has one outcome and handlers finish what they begin, nothing is ever lost if and only if the activities registered at the start include every activity of the definition and every compensation of those before its last |
| `Progress.NeverStuck` | internal/worker/worker.go:108-165 | With handlers run to completion (they may die before the first transaction or before the acknowledgement), manual retries that the saga admits and the needed activities registered, an execution that is still going always has an enabled step that moves its pending row on, and can still be driven to an end |
| `Fairness.FairRunsEnd` | internal/worker/worker.go:108-165 | In every infinite run of that kind, with any failures, deaths, redeliveries and retries by hand: if no step that serves a task (publish, expire, take, report, handle) is possible again and again and yet put off for ever, the execution ends, after whatever moment |
| `Fairness.FairRunsStop` | internal/worker/worker.go:108-165 | Without retries by hand it ends once, and its tables never change again |
| `Fairness.ReportPutOff` | internal/worker/worker.go:150-160 | A run that is fair to every step but the report of one worker, and in which the execution never ends |
| `SagaTheorems.ForwardPrefix` | internal/engine/engine.go:234-295 | Completed forward rows, in completion order, are exactly the first k activities, one each; while running, the pending row is activity k; COMPLETED means k is the whole definition |
| `SagaTheorems.PendingRows` | internal/engine/engine.go:133-482 | An execution is RUNNING or COMPENSATING exactly when it has a pending row, which is then its only one and its last; otherwise it has ended |
| `SagaTheorems.EndsAbsorb` | internal/engine/engine.go:152-155 | No later delivery changes an ended execution, although no handler looks for a final status |
| `SagaTheorems.CompensationOrder` | internal/engine/engine.go:179-232 | Compensations start and complete exactly in the order of the undo plan (reverse of completion, empty ones and later repeats dropped), none completes twice, and COMPENSATED means every one of them has completed |
| `SagaTheorems.RepeatsDoNotMatter` | internal/engine/engine.go:318-321 | Rows, status, events and outbox are those of the run with all repeated deliveries removed, wherever they stand and however late they come |
| `SagaTheorems.RunsAreBounded` | internal/engine/engine.go:354-408 | An execution never writes more rows, nor reacts to more deliveries, than the attempt limits of its activities and of its distinct compensations add up to |
| `Limits.RetriedExactly` | internal/engine/engine.go:333-430 | For every state: a reported failure is followed by the next attempt if and only if it may be retried and the policy (of the activity of that name, or else of the first it compensates) gives a number above one that the attempt has not reached; otherwise the row is dead-lettered at once, and the execution turns back or fails |
| `Limits.RetriedRows` | internal/engine/engine.go:361-408 | Then the row has failed, without a dead letter, and the next attempt of the same name follows it, pending |
| `Limits.OccursExactly` | internal/engine/engine.go:333-408 | Over all runs of deliveries, for every activity and every compensation that can come up: attempt a occurs in some run if and only if it is the first, or at most 64 and at most the number its policy gives |
| `Limits.NoneBeyond` | internal/engine/engine.go:354-408 | Whatever is reported or cancelled, however late and on whatever stale reads, no attempt beyond that is ever written, unless an operator asks for it |
| `Limits.UnknownIsRefused` | internal/engine/engine.go:333-352 | The failure of a row that is neither an activity's nor a compensation's returns an error and changes nothing |
| `SagaTheorems.EveryExecutionEnds` | internal/engine/engine.go:133-482 | Delivering the result of the row last written, over and over, ends every execution within that bound |
| `SagaTheorems.EveryStateEnds` | internal/engine/engine.go:133-645 | The same from every state reached, also after retries by hand beyond the limits, within its rank |
| `Adversary.KeySafety` | migrations/000002_create_execution_tables.up.sql:24 | Against any results, timeouts, retries and cancellations, with plans made on stale reads: no two rows share a name and an attempt, and attempts of a name have no gaps |
| `Adversary.LaunchedAtMostOnce` | internal/engine/engine.go:517-525 | An attempt (scheduled successor, compensation, manual retry) is launched at most once; every later launch of it is refused and changes nothing |
| `Adversary.EveryRowHasItsTask` | internal/repository/execution_repo.go:643-649 | Every row ever inserted had exactly one task message written with it, in the same order and with its key |
| `Messages.TasksAreDelayed` | internal/engine/engine.go:361-408 | Against any adversary, for every row ever launched: an automatic retry as attempt n up to 64 is parked for min(16, 2^(n-2)) seconds in that tier's queue alone, there is none as attempt 65, and every other launch (first attempts, retries by hand, automatic ones from 66 on) goes straight to the queue of its own activity if that is registered; and the task is about that row, with its key |
| `Messages.DeadLettersArrive` | internal/repository/execution_repo.go:328-359 | A row is dead-lettered if and only if a dead letter was written for it, which carries its name and key and reaches the dead-letter queue of its activity if and only if that is registered |
| `Messages.RunTells` | internal/repository/execution_repo.go:643-649 | Log, rows and task messages tell the same launches in the same order, attempts and delays included |
| `Adversary.LogReconstructsState` | internal/repository/execution_repo.go:80-135 | Without cancellations, folding the event log gives back status and current activity, and the launches it records are the rows, in order; this needs a non-empty definition and exactly that |
| `Adversary.CancelBreaksLog` | internal/repository/execution_repo.go:521-547 | A cancellation keeps the log in step with the status exactly when the execution had FAILED already |
| `Cancellations.CancelExactly` | internal/repository/execution_repo.go:521-547 | A cancellation changes the status exactly of RUNNING, COMPENSATING and COMPENSATED executions, and nothing else but the log |
| `Cancellations.CancelledGoesOn` | internal/engine/engine.go:133-482 | Cancelling a RUNNING execution stops nothing: whatever is delivered, it writes the rows and messages that it would have written, and ends as it would have ended, COMPLETED included |
| `Cancellations.CancelledStrands` | internal/engine/engine.go:234-256 | Cancelling a COMPENSATING one strands it at the next success: that handler completes its row and returns an error, no other compensation follows, and no delivery changes anything again |
| `Journal.LogTellsRows` | internal/repository/execution_repo.go:274-326 | In every run of a saga, retries by hand included: the completions and failures in the log are those of the settled rows, each once and in the order of the rows, and the log of a FAILED execution ends with the name of the row that failed it |
| `Compensation.DetermineNextIsLatest` | internal/engine/engine.go:647-691 | On any list in completion order the two-pass loop yields the compensation of the latest completed row that still awaits one, and none exactly when no row does |
| `Compensation.SettlingShrinksOutstanding` | internal/engine/engine.go:652-666 | Completing or failing the compensation chosen removes exactly it from the outstanding set |
| `Tables.AnyListingAgrees` | internal/repository/execution_repo.go:549-571 | Whatever order the database lists equal rows in, the same compensation is chosen |
| `Keys.DecodeInvertsKey` | internal/engine/engine.go:62 | Splitting at the last dash recovers execution, name and attempt from a key, for every name |
| `Keys.KeyInjective` | internal/engine/engine.go:383 | With ids of one length, equal keys mean equal execution, name and attempt |
| `Keys.KeysNeedOneLength` | internal/engine/engine.go:62 | Keys of ids of two lengths tell ids, names and attempts apart if and only if the two lengths are equal |
| `Keys.KeyNeedsFixedLengthIds` | internal/engine/engine.go:62 | Whatever the id, part of a longer id can be read as part of the name under the same key |
| `Keys.LiteralFirstAttempt` | internal/engine/engine.go:195 | The literal suffix of first compensation attempts agrees with the general form |
| `Backoff.TierExact` | internal/engine/engine.go:371-375 | With 64-bit wrap-around the tier for attempt n is min(16, 2^(n-2)), and a declared tier, if and only if n <= 64; at 65 the column refuses it; from 66 on it is 0 |
| `Backoff.TotalDelayClosedForm` | internal/engine/engine.go:371-375 | The delays of m attempts add up to 2^(m-1)-1 for m <= 6 and to 31+16(m-6) up to 64 |
| `Broker.BackoffIsCarriedOut` | internal/queue/rabbitmq.go:66-87 | The task for attempt 2 to 64 is parked for exactly its delay in that tier's queue alone, and from there reaches its own activity's queue; that one alone if no registered name has wildcard words that match another |
| `Broker.RetriesAreParked` | internal/queue/rabbitmq.go:145-158 | A retry reaches the parking queue of its tier and no other; one whose tier is not declared reaches none |
| `Broker.TasksReachTheirQueue` | internal/queue/rabbitmq.go:110-143 | A task reaches the queue of its own activity if and only if that activity is registered, whatever the names |
| `Broker.TasksReachOneQueue` | internal/queue/rabbitmq.go:110-143 | The tasks of registered activities reach their own queues and no others if and only if no registered name has wildcard words that match another |
| `Broker.PlainNamesAreApart` | internal/queue/rabbitmq.go:49-53 | Names without wildcard words are such names; with an activity called # every other activity's tasks go there too |
| `Broker.ActivityRoutes` | internal/queue/rabbitmq.go:110-143 | A task and a dead letter reach exactly the queues of the registered names whose words match, with * for one word and # for any number |
| `Broker.ResultsReachTheEngine` | internal/queue/rabbitmq.go:89-105 | Whatever activities are registered, results and heartbeats reach the engine's own queues, and no others |
| `Broker.AllIsDeclared` | internal/queue/rabbitmq.go:47-105 | Every binding is of an exchange and a queue that are declared |
| `Topics.MatchesItself` | internal/queue/rabbitmq.go:117 | Every name matches itself, and a plain one nothing else |
| `Broker.ReservedNames` | internal/queue/rabbitmq.go:110-112 | An activity shares its queue with the engine's own exactly when its name is one of seven |
| `Outbox.NothingIsLost` | internal/engine/outbox_publisher.go:40-79 | Whatever does not parse and whatever publications and deletions fail, exactly the messages written, told apart by their numbers, are in the outbox or have been published |
| `Outbox.PassExactly` | internal/engine/outbox_publisher.go:40-79 | A pass publishes a message exactly once if it is among the hundred oldest, parses and can be published, and otherwise not; and removes it exactly if it is then deleted |
| `Outbox.PassKeepsOrder` | internal/engine/outbox_publisher.go:47-78 | Messages are published in the order of the outbox |
| `Outbox.DrainsInTime` | internal/repository/execution_repo.go:651-670 | n messages are gone after exactly ceil(n/100) clean passes |
| `Outbox.OthersDrain` | internal/engine/outbox_publisher.go:63-77 | While f < 100 messages in all keep failing, n passes leave none of the others once n(100-f) reaches their number |
| `Outbox.DrainsExactly` | internal/repository/execution_repo.go:651-655 | For every message not in trouble itself, wherever it stands and whatever is written meanwhile: it gets through though the trouble of others lasts, by passes alone or by any run, if and only if fewer than a hundred ahead of it are in trouble |
| `Outbox.LeavesInTime` | internal/engine/outbox_publisher.go:40-79 | With f < 100 in trouble ahead, a message is published and gone once n(100-f) exceeds the number of the others ahead of it, whatever is written meanwhile |
| `Outbox.HundredBlockTheRest` | internal/repository/execution_repo.go:651-655 | While the hundred oldest messages cannot be published, nothing is published, and the outbox is what it was plus all that is written meanwhile; which messages get through in general is `Outbox.DrainsExactly` |
| `Worker.SlotsAreKept` | internal/worker/worker.go:83-99 | For any number of consumers and any interleaving, slots taken never outnumber the capacity and with the free ones add up to it, and the wait group counts exactly the deliveries between being added and being done |
| `Worker.SettledExactlyOnce` | internal/worker/worker.go:100-165 | A delivery run to completion is acknowledged or rejected exactly once, and acknowledged only after its result was published or its row found finished |
| `Worker.StagesAnswer` | internal/worker/worker.go:93-165 | A goroutine discards what does not parse, requeues what it could not report, and acknowledges everything else, once |
| `Results.EngineHearsWorker` | internal/worker/worker.go:137-158 | What the engine makes of the message a worker publishes: a success of the task's row exactly when the handler returned no error, and otherwise a failure that may be retried exactly unless the error says not |
| `Results.WorkMovesSaga` | internal/engine/engine.go:102-131 | So what the handler returns for the task of the awaited row is what the saga machine does next |
| `Worker.InHandIsBounded` | internal/worker/worker.go:83-89 | Deliveries not yet answered are at most one per slot and one per consumer |
| `Worker.DrainedMeansDone` | internal/worker/worker.go:173-189 | The wait group is at zero exactly when no delivery is between being added and being done; then every slot is free exactly when no consumer has just taken one that it has not added yet |
| `Worker.DrainedTooEarly` | internal/worker/worker.go:84-90 | A run in which the wait group is at zero while a delivery holds a slot and has not been answered |
| `Scheduler.StartsAreSpaced` | internal/scheduler/scheduler.go:152-171 | An interval-d schedule (d > 0) starts at most floor(W/d)+1 times in any window of length W, whatever pauses and failed starts there are, if polls come in the order of time and updates after starts succeed |
| `Scheduler.OnceStartsOnce` | internal/scheduler/scheduler.go:134-140 | A once or delayed schedule starts at most once, and once more per resume, if updates after starts succeed |
| `Scheduler.NotDueAfterStart` | internal/scheduler/scheduler.go:142-171 | A schedule started by a poll is not due any more at its time, except exactly when its kind is unknown or its interval is not positive |
| `Scheduler.CronDueExactly` | internal/scheduler/scheduler.go:142-151 | After any history of polls, pauses, resumes and failures: a cron schedule is due at a poll if and only if it is active and the cron's next time after its last start has come, or the update after that start failed, or the expression could not be read and an operator resumed it |
| `Scheduler.CronStartsExactly` | internal/scheduler/scheduler.go:106-131 | A poll starts it if and only if it is due then and starting succeeds; nothing else does: so it starts at the first such poll from the cron's next time on |
| `Scheduler.CronStartsApart` | internal/scheduler/scheduler.go:142-151 | Each start lies at or after the cron's next time following the start before, if updates succeed |
| `Scheduler.IntervalDueExactly` | internal/scheduler/scheduler.go:152-160 | The same for interval schedules, positive interval or not: due if and only if active and the interval since the last start is over, or the update after it failed |
| `Scheduler.IntervalStartsExactly` | internal/scheduler/scheduler.go:106-131 | A poll starts one if and only if it is due then and starting succeeds |
| `Scheduler.OthersDueExactly` | internal/scheduler/scheduler.go:133-164 | Once, delayed and unreadable schedules are due at their time, and after a start only if resumed; those of an unknown kind stay due |
| `Scheduler.EarlyStartExactly` | internal/scheduler/scheduler.go:152-171 | After any history of polls, pauses, resumes and failures: at a poll sooner than an interval after its last start, an interval schedule is due again if and only if it is active and the update after that start failed |
| `Scheduler.OnceAgainExactly` | internal/scheduler/scheduler.go:134-140 | A once or delayed schedule that has started is due again at a later poll if and only if it was resumed since, or the update after its last start failed and it was not paused since |
| `Scheduler.FailedUpdateStartsAgain` | internal/scheduler/scheduler.go:167-170 | An instance for every schedule that is due: when the update after its start fails, the next poll starts it again |
| `Scheduler.OneLeader` | internal/scheduler/scheduler.go:58-93 | While the leader neither loses nor gives back the lock, no other instance may poll |
| `Consumer.ConsumerKeepsSagas` | internal/engine/engine.go:102-131 | Whatever results come in, each telling its id's outcome: executions stay in states of their sagas, results for existing rows are acknowledged, and exactly those for rows that do not exist are requeued |
| `Consumer.VerdictsExactly` | internal/engine/engine.go:102-131 | For every list of deliveries and every position: discarded if and only if the body does not parse, acknowledged if and only if it parses and the handler it calls returns without an error, requeued otherwise, unknown executions included; malformed bodies and unknown executions change nothing, and any other delivery changes its own execution only, as its handler does |
| `Conflicts.ReportExactly` | internal/engine/engine.go:152-155 | For every state and every report: the execution stays in its saga if and only if the row does not exist, is pending, or is settled as reported; or it is the last row of an ended execution and its failure is reported with no attempts left |
| `Conflicts.LateFailureReopens` | internal/engine/engine.go:318-321 | Then a COMPLETED or COMPENSATED execution goes back to where a failure in time would have taken it |
| `Conflicts.CompletedIsReopened` | internal/engine/engine.go:441-481 | So a late failure takes a COMPLETED execution to COMPENSATING, or to FAILED when there is nothing to undo |
| `Conflicts.StaleTimeoutBreaks` | internal/engine/reaper.go:113-153 | A timeout found before the success came in and reported after it takes an execution that goes on out of its saga |
| `Conflicts.LateSuccessForks` | internal/engine/engine.go:152-155 | A success after a failure that may be retried was reported for the same row leaves two rows pending |
| `Conflicts.FlipBreaksReplay` | internal/engine/engine.go:234-251 | No run of the machine has an inner row settled the other way |
| `Retries.RetryExactly` | internal/engine/engine.go:484-556 | The retry of a dead-lettered row keeps an execution in its saga if and only if it is refused and changes nothing, or the execution has FAILED and the row is a compensation's or no compensation was ever started |
| `Retries.RetryWhileCompensating` | internal/engine/engine.go:498-556 | Retrying the dead-lettered activity while compensations are under way makes the execution RUNNING with two pending rows |
| `Retries.CompensatingRetryRun` | internal/engine/engine.go:498-556 | For every definition with something to undo this is a run that gets there |
| `Retries.ForwardRetrySkipsCompensation` | internal/engine/engine.go:442 | Retrying the dead-lettered activity while compensation j is stuck, and failing again, resumes behind j or fails: compensation j is skipped |
| `Boundaries.SharedNameNeverDone` | internal/engine/engine.go:653-666 | The next-step function can be brought to answer that nothing is left, by settling compensations, if and only if no completed activity has a compensation that is called like an activity |
| `Names.StaysInSagaExactly` | internal/engine/engine.go:653-666 | For every definition with distinct names: all runs of deliveries stay in the saga if and only if no compensation of an activity before the last is called like an activity and no activity allows more than 64 attempts |
| `Crashes.CutOffExactly` | internal/engine/engine.go:165-168 | A handler that dies between its two transactions keeps the execution in its saga if and only if it was not handling the awaited result, forward or back, success or failure |
| `Crashes.CutOffStrands` | internal/engine/engine.go:165-168 | Otherwise the execution is RUNNING or COMPENSATING with nothing pending, and no delivery ever changes it again |
| `Crashes.RescueExactly` | internal/engine/engine.go:484-556 | Of all manual retries of dead-lettered rows exactly that of the row cut off brings it back, if it was dead-lettered and its saga was to give up |
| `Crashes.NoCompensationRetry` | internal/engine/engine.go:569-571 | The retry of the compensation is refused, since a stranded execution has not FAILED |
| `Boundaries.TooManyAttemptsStrand` | internal/engine/engine.go:372 | For every definition with a limit above 64 this is a run of deliveries that strands the execution |
| `Boundaries.StrandedForever` | internal/engine/engine.go:318-321 | A stranded execution, running or compensating, stays as it is whatever is delivered |
| `Boundaries.AttemptIsReached` | internal/engine/engine.go:359-408 | Every attempt up to its limit and up to 64 is reached by some run |
| `Retries.RetryNeedsLatestFirst` | internal/engine/engine.go:589-617 | When a compensation has been dead-lettered more than once, retrying it works if and only if the unordered query lists the latest failure first; otherwise it is refused |
| `Retries.CompensationRetryExactly` | internal/engine/engine.go:558-645 | For every state and every listing: the retry of the compensation works if and only if the execution has FAILED, some dead-lettered row is no activity's, and the next attempt of the first such row listed does not exist; it launches that attempt under COMPENSATING, and otherwise returns an error and changes nothing |
| `Tables.FailedCompensationIsFirst` | internal/engine/engine.go:589-608 | The retry of a compensation picks the first dead-lettered row of the listing that is no activity |
| `Compensation.PositionOf` | internal/engine/engine.go:334-339 | The first activity of a name, and none exactly when no activity has it |
| `Compensation.CompensatorOf` | internal/engine/engine.go:341-348 | The first activity that a name compensates, and none exactly when there is none |
| `Compensation.IsNormal` | internal/engine/engine.go:653-659 | The loop decides whether a name is an activity of the definition |
| `Compensation.FindActivity` | internal/engine/engine.go:674-680 | The loop finds the first activity of a name, or none |
| `Compensation.CollectSettled` | internal/engine/engine.go:648-669 | The first pass collects the completed forward rows in order and the names of settled compensations |
| `Compensation.DetermineNextCompensation` | internal/engine/engine.go:647-691 | The two-pass loop computes the next compensation that the lemmas are about |
| `Repository.ExecutionRepo.constructor` | internal/repository/execution_repo.go:19-21 | Starts with empty tables |
| `Repository.ExecutionRepo.LockWorkflow` | internal/repository/execution_repo.go:24-41 | Takes the lock that the id hashes to |
| `Repository.ExecutionRepo.UnlockWorkflow` | internal/repository/execution_repo.go:44-59 | Gives it back |
| `Repository.ExecutionRepo.CreateExecution` | internal/repository/execution_repo.go:80-135 | Adds exactly one execution, with its first row, events and message if it has an activity; all others are as before |
| `Repository.ExecutionRepo.CompleteActivity` | internal/repository/execution_repo.go:274-299 | Completes the row at the next time of the clock and appends the event; nothing else changes |
| `Repository.ExecutionRepo.FailActivity` | internal/repository/execution_repo.go:301-326 | Fails the row and appends the event; nothing else changes |
| `Repository.ExecutionRepo.DeadLetterActivity` | internal/repository/execution_repo.go:328-359 | Fails and dead-letters the row, appends the event and writes one dead-letter message |
| `Repository.ExecutionRepo.ScheduleNextActivity` | internal/repository/execution_repo.go:424-465 | Inserts row, event and message and makes the activity current, or rolls all of it back when the key is taken or the tier does not fit |
| `Repository.ExecutionRepo.StartCompensating` | internal/repository/execution_repo.go:573-614 | The same under status COMPENSATING |
| `Repository.ExecutionRepo.RetryActivity` | internal/repository/execution_repo.go:381-422 | The same under the status of the retry |
| `Repository.ExecutionRepo.CompleteExecution` | internal/repository/execution_repo.go:467-492 | Sets the status and appends the event |
| `Repository.ExecutionRepo.FailExecution` | internal/repository/execution_repo.go:494-519 | Sets the status and appends the event |
| `Repository.ExecutionRepo.CompensatedExecution` | internal/repository/execution_repo.go:616-641 | Sets the status and appends the event |
| `Repository.ExecutionRepo.CancelExecution` | internal/repository/execution_repo.go:521-547 | Sets the status unless the execution is over; appends the event either way |
| `Repository.ExecutionRepo.GetExecution` | internal/repository/execution_repo.go:137-147 | Finds the execution exactly when there is one |
| `Repository.ExecutionRepo.GetActivityExecution` | internal/repository/execution_repo.go:262-272 | Finds the row exactly when there is one |
| `Repository.ExecutionRepo.ListActivityExecutions` | internal/repository/execution_repo.go:549-571 | Answers with all rows of the execution, in an order by completion time with open rows last |
| `Repository.ExecutionRepo.GetPendingOutboxMessages` | internal/repository/execution_repo.go:651-670 | Answers with the oldest messages, as many as there are up to the limit |
| `Repository.ExecutionRepo.DeleteOutboxMessage` | internal/repository/execution_repo.go:672-675 | Removes that message and nothing else |
| `Repository.IndexSeesOwnKeysOnly` | migrations/000002_create_execution_tables.up.sql:24 | The unique index over all rows refuses a key exactly when the execution itself has it |
| `Engine.Engine.constructor` | internal/engine/engine.go:26-28 | Puts the engine on its repository and definitions |
| `Engine.Engine.StartWorkflow` | internal/engine/engine.go:30-100 | Adds the execution of the definition, COMPLETED at once when it is empty and else RUNNING with one row and its message; an unknown definition changes nothing |
| `Engine.Engine.ReportActivitySuccess` | internal/engine/engine.go:133-296 | Statement by statement the handler does to the tables what its model says, leaves other executions alone, adds to the outbox what it wrote, and gives the lock back on every path |
| `Engine.Engine.ReportActivityFailure` | internal/engine/engine.go:298-482 | The same for failures: policy lookup, attempt limit, backoff tier, dead-lettering, turning back or failing |
| `Engine.Engine.RetryCompensation` | internal/engine/engine.go:558-645 | The same for the retry of a failed compensation, for whatever listing the database answers with |
| `Engine.Engine.RetryDeadLetteredActivity` | internal/engine/engine.go:484-556 | The same for the retry of a dead-lettered row, which takes no lock and looks for the definition under the execution's id first, under the workflow's then |
| `Engine.Engine.LookUpCompensation` | internal/engine/engine.go:434-439 | Listing the rows in any order and scanning them yields the compensation due |
| `Engine.Engine.FindPolicy` | internal/engine/engine.go:333-352 | The two loops find the activity that governs a name: its own, else the first it compensates |
| `Engine.Engine.FindFailedCompensation` | internal/engine/engine.go:589-608 | The loop finds the first dead-lettered row that is no activity of the definition |
| `Engine.Engine.HandleResult` | internal/engine/engine.go:110-129 | One result is handled and then acknowledged, requeued or discarded; discarded exactly if it does not parse |
| `Engine.Engine.StartResultConsumer` | internal/engine/engine.go:102-131 | Results are handled in order; each is acknowledged exactly when its handler returned no error, requeued when it did, discarded when it does not parse |
| `Outbox.OutboxPublisher.Dispatch` | internal/engine/outbox_publisher.go:54-66 | Publishes by tier: dead letters, tasks, retries |
| `Outbox.OutboxPublisher.ProcessOutbox` | internal/engine/outbox_publisher.go:40-79 | A pass over the hundred oldest messages publishes each that parses and can be, in order, and leaves exactly those not both published and deleted; tables are not touched, and a failing query changes nothing |
| `Broker.RabbitMQ.constructor` | internal/queue/rabbitmq.go:27-45 | A new connection has the whole topology |
| `Broker.RabbitMQ.DeclareTopology` | internal/queue/rabbitmq.go:47-108 | Declares exactly the exchanges, the parking queues with their times to live and dead-letter exchange, and the bindings |
| `Broker.RabbitMQ.RegisterActivityQueue` | internal/queue/rabbitmq.go:110-130 | Adds exactly the two queues and bindings of the activity and changes no queue there is; it is refused exactly when a queue of one of the names exists with other arguments, and then binds the first queue at most |
| `Broker.RabbitMQ.PublishTask` | internal/queue/rabbitmq.go:132-143 | Publishes to the workflow exchange under the activity's name |
| `Broker.RabbitMQ.PublishRetryTask` | internal/queue/rabbitmq.go:145-158 | Publishes to the retry exchange with the tier as header |
| `Broker.RabbitMQ.PublishDLQ` | internal/queue/rabbitmq.go:160-171 | Publishes to the dead-letter exchange |
| `Broker.RabbitMQ.PublishResult` | internal/queue/rabbitmq.go:173-184 | Publishes a result to the results exchange under the key result |
| `Worker.Worker.constructor` | internal/worker/worker.go:44-54 | Capacity is the given concurrency, or 100 when it is not positive |
| `Worker.Worker.RegisterActivity` | internal/worker/worker.go:56-58 | Adds the activity |
| `Worker.Worker.TakeSlot` | internal/worker/worker.go:84 | Takes a slot |
| `Worker.Worker.AddOne` | internal/worker/worker.go:90 | Counts the goroutine |
| `Worker.Worker.Work` | internal/worker/worker.go:93-165 | The goroutine answers its delivery exactly once and gives its slot back. It publishes a result, under the key of results, unless the row is found completed or failed; the result is about the task's row and says success exactly if the handler returned no error, and not to retry exactly if it returned such an error. It discards only what does not parse and requeues only what it could not publish |
| `Reaper.Reaper.RecordHeartbeat` | internal/repository/execution_repo.go:62-78 | Only a pending row takes a heartbeat |
| `Reaper.Reaper.QueryTimeouts` | internal/engine/reaper.go:113-142 | Every row has a stamp, and the query yields exactly the pending rows whose last one is older than the threshold, each once |
| `Reaper.Reaper.StampInserted` | internal/repository/execution_repo.go:397-401 | Inserting rows stamps them |
| `Reaper.Reaper.ReapTimeouts` | internal/engine/reaper.go:85-153 | If this instance has the reaper's lock and the query succeeds, reports exactly the pending rows silent for longer than the timeout, each as a failure that may be retried; a row whose report came through is FAILED when it is done, and rows launched meanwhile have a new stamp |
| `Scheduler.WorkflowRepo.GetDueSchedules` | internal/repository/workflow_repo.go:312-347 | Yields exactly the active schedules whose time has come, each once |
| `Scheduler.WorkflowRepo.UpdateScheduleState` | internal/repository/workflow_repo.go:349-363 | Rewrites status and, if given, next time of that schedule only |
| `Scheduler.Scheduler.TryAcquireLock` | internal/scheduler/scheduler.go:58-93 | Keeps the lock while its connection lives, drops it otherwise, and takes it when free |
| `Scheduler.Scheduler.ReleaseLock` | internal/scheduler/scheduler.go:47-56 | Gives the lock back |
| `Scheduler.Scheduler.Poll` | internal/scheduler/scheduler.go:106-131 | Without the lock, or when the query fails, nothing happens; otherwise every due schedule is started exactly once, whatever its backlog, and moved on unless that failed; others are not touched |
| `Scheduler.Scheduler.AdvanceSchedule` | internal/scheduler/scheduler.go:133-172 | Finishes once, delayed and unreadable schedules and sets the next time of the others |
| `Definitions.WorkflowRepo.CreateWorkflow` | internal/repository/workflow_repo.go:24-90 | Stores the activities by position, or nothing when the id is taken or two activities share a name |
| `Definitions.WorkflowRepo.GetWorkflow` | internal/repository/workflow_repo.go:166-219 | Reads the activities back in order |
| `Definitions.StoredOnce` | internal/repository/workflow_repo.go:166-219 | What is stored determines what is read back, activity by activity |
| `Definitions.StorableIsNearlyWellFormed` | migrations/000001_create_workflows_table.up.sql:17 | A storable definition has distinct names; it is well-formed if and only if no compensation of an activity before its last is called like an activity |
| `Adversary.CommitKeepsSound` | internal/repository/execution_repo.go:274-641 | Every lawful transaction keeps keys, attempts, completion times and task messages in order |
| `Adversary.LawfulStays` | internal/engine/engine.go:165-281 | A plan stays lawful however late it commits |
| `Adversary.FirstIsLawful` | internal/engine/engine.go:133-430 | What a handler decides before its first transaction is lawful: it asks for a first attempt, or the successor of one that exists |
| `Adversary.SecondIsLawful` | internal/engine/engine.go:170-482 | What a handler decides after its first transaction is lawful, and never a cancellation |
| `Adversary.CommitKeepsLog` | internal/repository/execution_repo.go:274-641 | Every transaction but a cancellation keeps log and state in step |
| `Adversary.HandleIsARun` | internal/engine/engine.go:133-482 | Every handler call, whole or cut off, is a short run of the adversary |
| `Adversary.HandleKeepsSound` | internal/engine/engine.go:133-482 | A handler call, whole or cut off, keeps keys, attempts, completion times and task messages in order, and a whole one keeps the log in step |
| `Tables.TableOrderAgrees` | internal/repository/execution_repo.go:549-552 | When completions happened in table order, scanning the table gives the same answer |
| `Compensation.LatestIsUnique` | internal/repository/execution_repo.go:551 | The answer depends on which rows there are, not on how they are listed |
| `Compensation.ScanFollowsPlan` | internal/engine/engine.go:671-689 | When exactly the first k activities have completed in order, the backward scan walks the undo plan |
| `Compensation.UndoPlanMembers` | internal/engine/engine.go:682-687 | The plan names each non-empty compensation of the completed activities once, and nothing else |
| `Compensation.UndoPlanStep` | internal/engine/engine.go:671-689 | Completing one more activity puts its compensation in front and drops it further back |
| `Saga.NextContinuesPlan` | internal/engine/engine.go:647-691 | On rows that a saga wrote, the lookup yields the first compensation of the plan that has not been tried |
| `Saga.LedgerForward` | internal/engine/engine.go:234-251 | Rows that a saga wrote show the first activities completed, in order, one each |
| `Saga.LedgerComps` | internal/engine/engine.go:652-666 | Rows that a saga wrote settle a prefix of the undo plan, and nothing else, as compensations |
| `Saga.AttemptIsFresh` | internal/engine/engine.go:371-385 | The attempt under way has no row yet, so its key is free |
| `Saga.LedgerFollowed` | internal/engine/engine.go:359-482 | Every failed attempt was followed by its successor, is the last one, or the saga turned back |
| `Refinement.SuccessStep` | internal/engine/engine.go:133-296 | The awaited success takes the machine one step on |
| `Refinement.FailureStep` | internal/engine/engine.go:298-482 | The awaited failure retries, turns back or gives up as the machine does |
| `Refinement.ResumeOrRefuse` | internal/engine/engine.go:517-556 | A launched retry is the attempt that the machine resumes, or its key is taken |
| `Refinement.HandleKeepsOthers` | internal/engine/engine.go:133-482 | A call touches no row but its own; a report that returns no error leaves its row settled as reported |
| `Refinement.UnawaitedIsIgnored` | internal/engine/engine.go:152-155 | A delivery for any other row changes nothing and returns an error exactly when there is no such row |
| `SagaTheorems.OutcomeUsesBudget` | internal/engine/engine.go:354-408 | Every outcome strictly lowers the number of rows still to be written while the execution goes on |
| `SagaTheorems.LastDelivery` | internal/engine/engine.go:133-482 | Delivering the last row's result strictly lowers the rank of an execution until it ends |
| `Serial.NeverTwoOnOne` | internal/repository/execution_repo.go:23-41 | Two handlers never hold the same execution |
| `Serial.NextKeeps` | internal/engine/engine.go:141-146 | Every step of every consumer keeps tables and handlers where the serial order puts them |
| `Serial.OrderIsARun` | internal/engine/engine.go:133-645 | What was done to one execution, in order, is a run of the engine on it |
| `Delivery.RoutedByTier` | internal/queue/rabbitmq.go:132-171 | By the tier a message becomes a queued task if its activity is registered, a parked one, or neither, as the bindings route it |
| `Delivery.TaskNames` | internal/repository/execution_repo.go:643-649 | A task message is about a row that exists, and its topic is the row's name |
| `Registration.TasksDiffer` | internal/repository/execution_repo.go:643-649 | No two task messages are about one row |
| `Progress.EnabledStep` | internal/worker/worker.go:108-165 | While a row of a registered activity is pending some step takes its task closer to being settled, or settles it |
| `Progress.CanFinish` | internal/engine/engine.go:102-131 | From any such state the execution can be driven to its end by possible steps |
| `Progress.OrderlyKeeps` | internal/engine/engine.go:102-131 | Every orderly step keeps the execution in its saga and something on its way for its pending row, if that row's activity is registered |
| `Registration.HandledLast` | internal/worker/worker.go:108-165 | The task of a pending row whose activity is registered can be carried to the engine and its result handled, and what that launches is still in the outbox |
| `Registration.ReachPath` | internal/engine/engine.go:133-482 | As long as what comes up is registered, some run comes to every activity and every compensation of those before the last |
| `Outbox.PassStep` | internal/engine/outbox_publisher.go:47-78 | Handling one more message publishes it unless that fails and removes it exactly when both steps succeed |
| `Outbox.FairPassProgresses` | internal/repository/execution_repo.go:651-655 | A pass gets rid of at least 100 - f of the messages not in trouble, or of all of them |
| `Consumer.ConsumingIsRunning` | internal/engine/engine.go:102-131 | On each execution the consumer is the run of the engine on the results for it |
| `Reaper.ReportKeepsRows` | internal/engine/reaper.go:141-153 | A report leaves every row in place and every other row in its status, and its own row failed |
| `Reaper.TimeoutsMayBeRetried` | internal/engine/reaper.go:141-153 | A timeout is reported as a failure of its own row that may be retried |
| `Engine.EmptyIsCompleted` | internal/engine/engine.go:30-100 | An empty definition is COMPLETED at once, without rows or messages; any other is RUNNING with its first activity pending |

## Left out

- PostgreSQL, SQL, AMQP and JSON as such: tables are maps and sequences, transactions commit whole or not at all, queues are tokens.
- Random ids: a row's id is its position in its execution, a message's id its number; only that they are fresh matters.
- Wall clocks: completion times are counted per execution; created and updated times are not modelled.
- Lengths of VARCHAR columns: keys and names are taken to fit. The width of `outbox_messages.tier` is modelled, that of `attempt` is not.
- Failing database connections inside a handler: a handler that loses its connection is one cut off at that point.
- Serial.RunsSerially: reads between two transactions of a handler are one step. A handler between its transactions is taken to bear refused calls only; `Races.MidwayExactly` has the one further case, which no awaited report of a saga meets (`Races.AwaitedMidway`).
- Serial.ConcurrentEngineRefinesSaga: an execution that is cancelled is not covered, since the saga has no state for it; what becomes of one is in `Cancellations.dfy`.
- Fairness.FairRunsEnd: admits no crash between the two transactions of a handler either.
- Progress.NeverStuck: admits no crash between the two transactions of a handler, because there the statement is false (`Crashes.CutOffExactly`).
- Delivery.NoWorkIsLost: no step of the broker itself loses a message, see the assumption above; what a task in the queue of another activity, whose name matches by wildcards, does there is not followed.
- Reaper.Reaper.ReapTimeouts: nothing else runs between its query and its reports; in `Delivery.dfy` a timeout may strike at any moment, and `Conflicts.StaleTimeoutBreaks` says what a late report does.
- Repository.ExecutionRepo.GetPendingOutboxMessages: messages come in the order of insertion; the query orders them by the start of their transactions.
- Worker.Worker.Work: one goroutine at a time, giving back slot and count together; their interleavings, with slot and count apart, are the state machine in the same module.
- Scheduler.Scheduler.Poll: starting a workflow is an outcome given from outside; an operator's pause between the query and the update of one poll is not modelled.
- Publishing heartbeats, and the loop that consumes them: a heartbeat is `Reaper.Reaper.RecordHeartbeat`, and its queue `Broker.ResultsReachTheEngine`.
- DeleteExecution, DeleteWorkflow and UpdateWorkflow: they remove or change what the invariants speak of.
- Definitions.WorkflowRepo.CreateWorkflow: unique workflow names, retry policies other than their attempt limit and timeouts of activities are left out; nothing reads them.
- Cron and duration parsing, tracing, metrics, logging, the HTTP API, authentication, clients, user interfaces and demo activities.
- ListExecutions, GetExecutionEvents, ListDeadLetteredActivities and ListSchedules: queries for display.
