/** The entities of `internal/models` and of the SQL migrations, as values. */
module Models {

  datatype Option<+T> = None | Some(value: T)

  /** One step of a workflow definition. `maxAttempts` is the retry policy, when there is one. */
  datatype Activity = Activity(name: string, compensation: string, maxAttempts: Option<int>)

  /** A definition: its activities in order of position. */
  type Workflow = seq<Activity>

  datatype ExecutionStatus = Running | Completed | Failed | Compensating | Compensated | Cancelled

  datatype RowStatus = RowPending | RowCompleted | RowFailed

  /** Attempts are counted from one. */
  type Attempt = n: nat | n >= 1 witness 1

  /** A row of `activity_executions`. Its id is its position in the table of its execution. */
  datatype ActivityRow = ActivityRow(
    name: string,
    attempt: Attempt,
    status: RowStatus,
    key: string,
    completedAt: Option<nat>,
    deadLettered: bool)

  /** A row of `workflow_events`; the fields are what its JSON payload carries. */
  datatype Event =
    | WorkflowStarted
    | WorkflowCompleted
    | WorkflowFailed(reason: string, byUser: bool)
    | ActivityScheduled(name: string, attempt: Option<nat>, manualRetry: bool)
    | ActivityCompleted(name: string)
    | ActivityFailed(name: string)
    | CompensationStarted(name: string, attempt: Option<nat>, manualRetry: bool)
    | CompensationCompleted

  /** The payload of an outbox message. */
  datatype Task = Task(exec: string, activityId: nat, name: string, key: string)

  /** A row of `outbox_messages`. `id` numbers the messages written for one execution. */
  datatype OutboxMessage = OutboxMessage(id: nat, topic: string, tier: int, task: Task)

  /** What a worker reports about an activity. */
  datatype ResultMessage = ResultMessage(exec: string, id: nat, name: string, success: bool, nonRetryable: bool)

  /** Tier -1 marks a message for the dead-letter queue. */
  const DLQ_TIER := -1
}
