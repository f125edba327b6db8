/**
 * The tables of one execution, the transactions of the repository over them, and the
 * engine's handlers as what they decide between those transactions.
 */
module Tables {
  import opened Models
  import opened Keys
  import opened Backoff
  import opened Compensation

  /** `completions` counts committed completions and serves as their clock; `sent` counts outbox messages. */
  datatype Tables = Tables(
    exec: string,
    status: ExecutionStatus,
    current: string,
    rows: seq<ActivityRow>,
    completions: nat,
    events: seq<Event>,
    outbox: seq<OutboxMessage>,
    sent: nat)

  /** The tables after a call, and whether the call returned without an error. */
  datatype Reply = Reply(t: Tables, ok: bool)

  predicate IsPending(t: Tables, i: nat) {
    i < |t.rows| && t.rows[i].status == RowPending
  }

  /******* Listing rows *******/

  /** `ORDER BY completed_at ASC NULLS LAST` allows `a` before `b`. */
  predicate MayPrecede(a: ActivityRow, b: ActivityRow) {
    b.completedAt.None? || (a.completedAt.Some? && a.completedAt.value <= b.completedAt.value)
  }

  /** Any order the database may answer with. */
  ghost predicate IsListing(rows: seq<ActivityRow>, acts: seq<ActivityRow>) {
    && multiset(acts) == multiset(rows)
    && forall i, j | 0 <= i < j < |acts| :: MayPrecede(acts[i], acts[j])
  }

  function InsertRow(acts: seq<ActivityRow>, r: ActivityRow): (s: seq<ActivityRow>)
    ensures multiset(s) == multiset(acts) + multiset{r}
  {
    if acts == [] then [r]
    else
      var last := acts[|acts| - 1];
      assert acts == acts[..|acts| - 1] + [last];
      if MayPrecede(last, r) then acts + [r] else InsertRow(acts[..|acts| - 1], r) + [last]
  }

  /** One such order. */
  function Listing(rows: seq<ActivityRow>): (s: seq<ActivityRow>)
    ensures multiset(s) == multiset(rows)
  {
    if rows == [] then []
    else
      assert rows == rows[..|rows| - 1] + [rows[|rows| - 1]];
      InsertRow(Listing(rows[..|rows| - 1]), rows[|rows| - 1])
  }

  ghost predicate Ordered(acts: seq<ActivityRow>) {
    forall i, j | 0 <= i < j < |acts| :: MayPrecede(acts[i], acts[j])
  }

  lemma {:induction false} InsertKeepsOrder(acts: seq<ActivityRow>, r: ActivityRow)
    requires Ordered(acts)
    ensures Ordered(InsertRow(acts, r))
  {
    if acts != [] {
      var init, last := acts[..|acts| - 1], acts[|acts| - 1];
      if !MayPrecede(last, r) {
        InsertKeepsOrder(init, r);
        var s := InsertRow(init, r);
        forall i | 0 <= i < |s| ensures MayPrecede(s[i], last) {
          assert s[i] in multiset(s);
          assert s[i] in multiset(init) + multiset{r};
        }
      }
    }
  }

  lemma {:induction false} ListingIsListing(rows: seq<ActivityRow>)
    ensures IsListing(rows, Listing(rows))
  {
    if rows != [] {
      ListingIsListing(rows[..|rows| - 1]);
      InsertKeepsOrder(Listing(rows[..|rows| - 1]), rows[|rows| - 1]);
    }
  }

  /** The compensation due after the rows `rows`. */
  function NextCompensation(wf: Workflow, rows: seq<ActivityRow>): Option<string> {
    DetermineNext(wf, Listing(rows))
  }

  /** Completion times: every completed row has one, and no two rows share one. */
  ghost predicate Timed(rows: seq<ActivityRow>) {
    && DistinctTimes(rows)
    && forall i | 0 <= i < |rows| && rows[i].status == RowCompleted :: rows[i].completedAt.Some?
  }

  lemma {:induction false} SameMembers(rows: seq<ActivityRow>, acts: seq<ActivityRow>)
    requires multiset(acts) == multiset(rows)
    ensures forall r :: r in rows <==> r in acts
  {
    forall r ensures r in rows <==> r in acts {
      assert r in rows <==> r in multiset(rows);
      assert r in acts <==> r in multiset(acts);
    }
  }

  /** Whatever order the database lists the rows in, the same compensation is chosen. */
  lemma {:induction false} AnyListingAgrees(wf: Workflow, rows: seq<ActivityRow>, acts: seq<ActivityRow>)
    requires Timed(rows) && IsListing(rows, acts)
    ensures DetermineNext(wf, acts) == NextCompensation(wf, rows)
    ensures IsLatestAwaiting(wf, rows, NextCompensation(wf, rows))
  {
    var acts' := Listing(rows);
    ListingIsListing(rows);
    SameMembers(rows, acts);
    SameMembers(rows, acts');
    ListingInOrder(rows, acts);
    ListingInOrder(rows, acts');
    DetermineNextIsLatest(wf, acts);
    DetermineNextIsLatest(wf, acts');
    assert CompletedComps(wf, rows) == CompletedComps(wf, acts) == CompletedComps(wf, acts');
    LatestTransfers(wf, acts', rows, DetermineNext(wf, acts'));
    LatestIsUnique(wf, rows, acts, DetermineNext(wf, acts'), DetermineNext(wf, acts));
  }

  lemma {:induction false} ListingInOrder(rows: seq<ActivityRow>, acts: seq<ActivityRow>)
    requires Timed(rows) && IsListing(rows, acts)
    ensures CompletedInOrder(acts)
  {
    SameMembers(rows, acts);
    forall i | 0 <= i < |acts| && acts[i].status == RowCompleted ensures acts[i].completedAt.Some? {
      assert acts[i] in rows;
    }
    forall i, j | 0 <= i < j < |acts| && acts[i].status == RowCompleted && acts[j].status == RowCompleted
      ensures acts[i].completedAt.value <= acts[j].completedAt.value
    {
      assert MayPrecede(acts[i], acts[j]);
    }
  }

  lemma {:induction false} LatestTransfers(wf: Workflow, acts: seq<ActivityRow>, rows: seq<ActivityRow>,
      next: Option<string>)
    requires forall r :: r in rows <==> r in acts
    requires IsLatestAwaiting(wf, acts, next)
    ensures IsLatestAwaiting(wf, rows, next)
  {
  }

  /** When completions happened in table order, scanning the table itself gives the answer. */
  lemma {:induction false} TableOrderAgrees(wf: Workflow, rows: seq<ActivityRow>)
    requires Timed(rows) && CompletedInOrder(rows)
    ensures NextCompensation(wf, rows) == DetermineNext(wf, rows)
  {
    ListingIsListing(rows);
    AnyListingAgrees(wf, rows, Listing(rows));
    DetermineNextIsLatest(wf, rows);
    LatestIsUnique(wf, rows, rows, NextCompensation(wf, rows), DetermineNext(wf, rows));
  }

  /******* Transactions *******/

  datatype Tx =
    | CompleteActivity(id: nat)
    | FailActivity(id: nat)
    | DeadLetterActivity(id: nat)
    | ScheduleNextActivity(next: string, attempt: Attempt, tier: int)
    | StartCompensating(next: string, attempt: Attempt, manual: bool)
    | RetryActivity(compensation: bool, next: string, attempt: Attempt)
    | CompleteExecution
    | FailExecution(reason: string)
    | CompensatedExecution
    | CancelExecution(reason: string)

  predicate InRange(t: Tables, tx: Tx) {
    IsSettle(tx) ==> tx.id < |t.rows|
  }

  predicate KeyTaken(rows: seq<ActivityRow>, key: string) {
    exists i | 0 <= i < |rows| :: rows[i].key == key
  }

  function Message(t: Tables, id: nat, name: string, key: string, tier: int): OutboxMessage {
    OutboxMessage(t.sent, name, tier, Task(t.exec, id, name, key))
  }

  /**
   * Makes `name` current and inserts its pending row, an event and a task message. The unique key and
   * the width of the tier column can refuse the insertion; then nothing changes.
   */
  function Launch(t: Tables, status: ExecutionStatus, name: string, attempt: Attempt, event: Event, tier: int): Reply {
    var key := Key(t.exec, name, attempt);
    if KeyTaken(t.rows, key) || !FitsInt32(tier) then Reply(t, false)
    else
      Reply(t.(status := status,
               current := name,
               rows := t.rows + [ActivityRow(name, attempt, RowPending, key, None, false)],
               events := t.events + [event],
               outbox := t.outbox + [Message(t, |t.rows|, name, key, tier)],
               sent := t.sent + 1),
            true)
  }

  /** Commits a transaction whole, or not at all. */
  function Commit(t: Tables, tx: Tx): Reply
    requires InRange(t, tx)
  {
    match tx
    case CompleteActivity(id) =>
      var r := t.rows[id];
      Reply(t.(rows := t.rows[id := r.(status := RowCompleted, completedAt := Some(t.completions))],
               completions := t.completions + 1,
               events := t.events + [ActivityCompleted(r.name)]), true)
    case FailActivity(id) =>
      var r := t.rows[id];
      Reply(t.(rows := t.rows[id := r.(status := RowFailed)], events := t.events + [ActivityFailed(r.name)]), true)
    case DeadLetterActivity(id) =>
      var r := t.rows[id];
      Reply(t.(rows := t.rows[id := r.(status := RowFailed, deadLettered := true)],
               events := t.events + [ActivityFailed(r.name)],
               outbox := t.outbox + [Message(t, id, r.name, r.key, DLQ_TIER)],
               sent := t.sent + 1), true)
    case ScheduleNextActivity(next, attempt, tier) =>
      Launch(t, t.status, next, attempt, ActivityScheduled(next, if attempt == 1 then None else Some(attempt), false),
          tier)
    case StartCompensating(next, attempt, manual) =>
      Launch(t, Compensating, next, attempt,
          CompensationStarted(next, if manual then Some(attempt) else None, manual), 0)
    case RetryActivity(comp, next, attempt) =>
      if comp then
        Launch(t, Compensating, next, attempt, CompensationStarted(next, Some(attempt), true), 0)
      else
        Launch(t, Running, next, attempt, ActivityScheduled(next, Some(attempt), true), 0)
    case CompleteExecution =>
      Reply(t.(status := Completed, events := t.events + [WorkflowCompleted]), true)
    case FailExecution(reason) =>
      Reply(t.(status := Failed, events := t.events + [WorkflowFailed(reason, false)]), true)
    case CompensatedExecution =>
      Reply(t.(status := Compensated, events := t.events + [CompensationCompleted]), true)
    case CancelExecution(reason) =>
      var over := t.status == Completed || t.status == Failed || t.status == Cancelled;
      Reply(t.(status := if over then t.status else Cancelled, events := t.events + [WorkflowFailed(reason, true)]),
            true)
  }

  /** The tables of a freshly created execution. */
  function Create(exec: string, wf: Workflow): Tables {
    if wf == [] then
      Tables(exec, Completed, "", [], 0, [WorkflowStarted], [], 0)
    else
      var name := wf[0].name;
      var key := Key(exec, name, 1);
      Tables(exec, Running, name,
             [ActivityRow(name, 1, RowPending, key, None, false)], 0,
             [WorkflowStarted, ActivityScheduled(name, None, false)],
             [OutboxMessage(0, name, 0, Task(exec, 0, name, key))], 1)
  }

  /******* Handlers *******/

  /** A call of the engine on one execution. `acts` is the listing the database answered with. */
  datatype Call =
    | ReportSuccess(id: nat)
    | ReportFailure(id: nat, nonRetryable: bool)
    | RetryCompensation(acts: seq<ActivityRow>)
    | RetryDeadLettered(id: nat)

  /** What a handler does after reading: return, or run a transaction. */
  datatype Decision = Return(ok: bool) | Do(tx: Tx)

  /** The policy that governs a name: its own activity's, else that of the first activity it compensates. */
  function PolicyOf(wf: Workflow, name: string): Option<Activity> {
    match PositionOf(wf, name)
    case Some(i) => Some(wf[i])
    case None =>
      match CompensatorOf(wf, name)
      case Some(i) => Some(wf[i])
      case None => None
  }

  function AttemptLimit(a: Activity): (n: nat)
    ensures n >= 1
  {
    if a.maxAttempts.Some? && a.maxAttempts.value > 1 then a.maxAttempts.value else 1
  }

  predicate RetriesLeft(wf: Workflow, r: ActivityRow, nonRetryable: bool) {
    var policy := PolicyOf(wf, r.name);
    policy.Some? && r.attempt < AttemptLimit(policy.value) && !nonRetryable
  }

  predicate IsDeadCompensation(wf: Workflow, r: ActivityRow) {
    r.deadLettered && !IsForward(wf, r.name)
  }

  /** The first dead-lettered compensation in a listing. */
  function FirstFailedCompensation(wf: Workflow, acts: seq<ActivityRow>): (r: Option<ActivityRow>)
    ensures r.Some? ==> r.value in acts && IsDeadCompensation(wf, r.value)
    ensures r.None? ==> forall a | a in acts :: !IsDeadCompensation(wf, a)
  {
    if acts == [] then None
    else if IsDeadCompensation(wf, acts[0]) then Some(acts[0])
    else FirstFailedCompensation(wf, acts[1..])
  }

  lemma {:induction false} FailedCompensationIsFirst(wf: Workflow, acts: seq<ActivityRow>, i: nat)
    requires i < |acts| && IsDeadCompensation(wf, acts[i]) && forall k | 0 <= k < i :: !IsDeadCompensation(wf, acts[k])
    ensures FirstFailedCompensation(wf, acts) == Some(acts[i])
  {
    if i > 0 { FailedCompensationIsFirst(wf, acts[1..], i - 1); }
  }

  /** The decision up to the first transaction: a report settles its row, a retry launches an attempt. */
  function First(wf: Workflow, t: Tables, call: Call): (d: Decision)
    ensures d.Do? ==> InRange(t, d.tx)
    ensures d.Do? && call.ReportSuccess? ==> d.tx == CompleteActivity(call.id)
    ensures d.Do? && call.ReportFailure? ==> d.tx == FailActivity(call.id) || d.tx == DeadLetterActivity(call.id)
    ensures d.Do? && call.RetryCompensation? ==> d.tx.StartCompensating?
    ensures d.Do? && call.RetryDeadLettered? ==> d.tx.RetryActivity?
  {
    match call
    case ReportSuccess(id) =>
      if id >= |t.rows| then Return(false)
      else if t.rows[id].status == RowCompleted then Return(true)
      else Do(CompleteActivity(id))
    case ReportFailure(id, nonRetryable) =>
      if id >= |t.rows| then Return(false)
      else if t.rows[id].status == RowFailed then Return(true)
      else if PolicyOf(wf, t.rows[id].name).None? then Return(false)
      else if RetriesLeft(wf, t.rows[id], nonRetryable) then Do(FailActivity(id))
      else Do(DeadLetterActivity(id))
    case RetryCompensation(acts) =>
      if t.status != Failed then Return(false)
      else
        (match FirstFailedCompensation(wf, acts)
         case None => Return(false)
         case Some(r) => Do(StartCompensating(r.name, r.attempt + 1, true)))
    case RetryDeadLettered(id) =>
      if id >= |t.rows| || !t.rows[id].deadLettered then Return(false)
      else if t.status == Compensated || t.status == Cancelled || t.status == Completed then Return(false)
      else Do(RetryActivity(!IsForward(wf, t.rows[id].name), t.rows[id].name, t.rows[id].attempt + 1))
  }

  predicate IsSettle(tx: Tx) {
    tx.CompleteActivity? || tx.FailActivity? || tx.DeadLetterActivity?
  }

  /**
   * The decision after the first transaction: never to settle another row, nor to cancel.
   * `before` is the status read ahead of the first transaction.
   */
  function Second(wf: Workflow, before: ExecutionStatus, t: Tables, call: Call): (d: Decision)
    ensures d.Do? ==> InRange(t, d.tx) && !IsSettle(d.tx) && !d.tx.CancelExecution? && !d.tx.RetryActivity?
    ensures d.Do? ==> call.ReportSuccess? || call.ReportFailure?
  {
    match call
    case ReportSuccess(id) =>
      if id >= |t.rows| then Return(false)
      else if t.status == Compensating then
        (match NextCompensation(wf, t.rows)
         case Some(c) => Do(StartCompensating(c, 1, false))
         case None => Do(CompensatedExecution))
      else
        (match PositionOf(wf, t.rows[id].name)
         case None => Return(false)
         case Some(i) =>
           if i + 1 < |wf| then Do(ScheduleNextActivity(wf[i + 1].name, 1, 0)) else Do(CompleteExecution))
    case ReportFailure(id, nonRetryable) =>
      if id >= |t.rows| then Return(false)
      else if RetriesLeft(wf, t.rows[id], nonRetryable) then
        Do(ScheduleNextActivity(t.rows[id].name, t.rows[id].attempt + 1, Tier(t.rows[id].attempt + 1)))
      else
        var next := NextCompensation(wf, t.rows);
        if next.Some? && before != Compensating then Do(StartCompensating(next.value, 1, false))
        else Do(FailExecution(t.rows[id].name))
    case RetryCompensation(_) => Return(true)
    case RetryDeadLettered(_) => Return(true)
  }

  /** A call run to its end: at most two transactions, the second only after the first committed. */
  function Handle(wf: Workflow, t: Tables, call: Call): Reply {
    match First(wf, t, call)
    case Return(ok) => Reply(t, ok)
    case Do(tx) =>
      var r := Commit(t, tx);
      if !r.ok then r
      else
        match Second(wf, t.status, r.t, call)
        case Return(ok) => Reply(r.t, ok)
        case Do(tx') => Commit(r.t, tx')
  }

  /** A call cut off after its first transaction, as when its process dies. */
  function HandleCrashed(wf: Workflow, t: Tables, call: Call): Tables {
    match First(wf, t, call)
    case Return(_) => t
    case Do(tx) => Commit(t, tx).t
  }
}
