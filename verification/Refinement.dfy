/**
 * The engine refines the ideal saga: when every activity id has one outcome, delivered any number of
 * times and in any order, name lookups and row scans compute the machine's program counter.
 */
module Refinement {
  import opened Models
  import opened Backoff
  import opened Compensation
  import opened Tables
  import opened Adversary
  import opened Saga

  /** Up to 64 attempts the backoff tier can be stored, see `Backoff.TierExact`. */
  ghost predicate Backed(wf: Workflow) {
    forall i | 0 <= i < |wf| :: AttemptLimit(wf[i]) <= 64
  }

  ghost predicate Sensible(wf: Workflow) {
    wf != [] && WellFormed(wf)
  }

  ghost predicate Definition(wf: Workflow) {
    Sensible(wf) && Backed(wf)
  }

  /******* The abstraction *******/

  function Init<T>(s: seq<T>): seq<T>
    requires s != []
  {
    s[..|s| - 1]
  }

  function Last<T>(s: seq<T>): T
    requires s != []
  {
    s[|s| - 1]
  }

  /** The machine state that the rows stand for. */
  ghost function Abs(wf: Workflow, rows: seq<ActivityRow>): Option<Saga> {
    if rows == [] then None
    else if Last(rows).status == RowPending then
      match Replay(wf, Init(rows))
      case None => None
      case Some(s) => if IsAttempt(wf, Resume(s), Last(rows)) then Some(Resume(s)) else None
    else Replay(wf, rows)
  }

  /** Dead-lettered rows are failed rows. */
  ghost predicate DeadRowsFailed(rows: seq<ActivityRow>) {
    forall i | 0 <= i < |rows| && rows[i].deadLettered :: rows[i].status == RowFailed
  }

  /** The tables hold a run of the machine, and their status and current activity say where it is. */
  ghost predicate Refines(wf: Workflow, t: Tables) {
    && Sound(t) && CompletedInOrder(t.rows) && DeadRowsFailed(t.rows)
    && t.rows != []
    && Abs(wf, t.rows).Some?
    && var s := Abs(wf, t.rows).value;
       && (Active(s) <==> Last(t.rows).status == RowPending)
       && t.status == StatusOf(s)
       && t.current == Last(t.rows).name
  }

  ghost function State(wf: Workflow, t: Tables): (s: Saga)
    requires Refines(wf, t)
    ensures Valid(wf, s)
  {
    if Last(t.rows).status == RowPending then
      ResumeIsValid(wf, Replay(wf, Init(t.rows)).value);
      Abs(wf, t.rows).value
    else Abs(wf, t.rows).value
  }

  /** What most proofs need to know of tables that refine a state. */
  lemma {:induction false} RefinesFacts(wf: Workflow, t: Tables)
    requires Refines(wf, t)
    ensures Sound(t) && CompletedInOrder(t.rows) && |t.rows| > 0
    ensures t.status == StatusOf(State(wf, t)) && t.current == Last(t.rows).name
    ensures Active(State(wf, t)) <==> Last(t.rows).status == RowPending
    ensures Active(State(wf, t)) ==>
              Last(t.rows).name == Doing(wf, State(wf, t)) && Last(t.rows).attempt == State(wf, t).a
  {
  }

  lemma {:induction false} CreateRefines(exec: string, wf: Workflow)
    requires wf != []
    ensures Refines(wf, Create(exec, wf)) && State(wf, Create(exec, wf)) == Forward(0, 1)
  {
    CreateIsSound(exec, wf);
    var t := Create(exec, wf);
    assert Init(t.rows) == [];
  }

  /** The rows of a ledger are settled. */
  lemma {:induction false} LedgerIsSettled(wf: Workflow, rows: seq<ActivityRow>, i: nat)
    requires Replay(wf, rows).Some? && i < |rows|
    ensures Settled(rows[i])
  {
    var _ := LastStep(wf, rows);
    if i < |rows| - 1 {
      LedgerIsSettled(wf, rows[..|rows| - 1], i);
    }
  }

  /******* A step: settle the pending row, then follow up *******/

  /** Where settling takes the machine. */
  ghost predicate Settles(wf: Workflow, s: Saga, tx: Tx, s': Saga) {
    && Valid(wf, s) && Active(s)
    && match tx
       case CompleteActivity(_) => s' == OnSuccess(wf, s)
       case FailActivity(_) => s.a < Limit(wf, Doing(wf, s)) && s' == OnRetry(s)
       case DeadLetterActivity(_) => s' == OnGivingUp(wf, s)
       case _ => false
  }

  /** A settled ledger at `s'`, still under the status of `t`. */
  ghost predicate SettledInto(wf: Workflow, t: Tables, t1: Tables, s': Saga) {
    && Sound(t1) && CompletedInOrder(t1.rows) && DeadRowsFailed(t1.rows)
    && t1.rows != [] && |t1.rows| == |t.rows|
    && t1.exec == t.exec && t1.status == t.status && t1.current == t.current && Last(t1.rows).name == t.current
    && Valid(wf, s') && Replay(wf, t1.rows) == Some(s')
  }

  lemma {:induction false} SettledOrder(t: Tables, tx: Tx)
    requires Sound(t) && CompletedInOrder(t.rows) && DeadRowsFailed(t.rows) && t.rows != []
    requires IsSettle(tx) && tx.id == |t.rows| - 1
    requires Last(t.rows).status == RowPending
    ensures CompletedInOrder(Commit(t, tx).t.rows) && DeadRowsFailed(Commit(t, tx).t.rows)
  {
  }

  lemma {:induction false} ReplayOfSettled(wf: Workflow, rows: seq<ActivityRow>, r: ActivityRow, s: Saga, tx: Tx,
      s': Saga)
    requires rows != [] && Replay(wf, Init(rows)).Some? && s == Resume(Replay(wf, Init(rows)).value)
    requires IsAttempt(wf, s, Last(rows)) && Settles(wf, s, tx, s')
    requires r.name == Last(rows).name && r.attempt == Last(rows).attempt
    requires r.status == (if tx.CompleteActivity? then RowCompleted else RowFailed)
    requires r.deadLettered == tx.DeadLetterActivity?
    ensures Replay(wf, rows[|rows| - 1 := r]) == Some(s')
  {
    assert Init(rows[|rows| - 1 := r]) == Init(rows);
  }

  lemma {:induction false} SettleLast(wf: Workflow, t: Tables, tx: Tx, s': Saga)
    requires Refines(wf, t) && Active(State(wf, t))
    requires Settles(wf, State(wf, t), tx, s') && tx.id == |t.rows| - 1
    ensures SettledInto(wf, t, Commit(t, tx).t, s') && Commit(t, tx).ok
  {
    hide UndoPlan, Sound;
    SettleKeepsSound(t, tx);
    SettledOrder(t, tx);
    ReplayOfSettled(wf, t.rows, Commit(t, tx).t.rows[tx.id], State(wf, t), tx, s');
  }

  /** The transaction that the state `s'` calls for. */
  ghost predicate CallsFor(wf: Workflow, s': Saga, status: ExecutionStatus, tx: Tx) {
    && Valid(wf, s')
    && match tx
       case ScheduleNextActivity(next, attempt, tier) =>
         && Active(s') && next == Doing(wf, s') && attempt == s'.a && status == StatusOf(s')
         && (if attempt == 1 then tier == 0 else tier == Tier(attempt) && attempt <= 64)
       case StartCompensating(next, attempt, _) =>
         s'.Undo? && next == Doing(wf, s') && attempt == s'.a
       case RetryActivity(comp, next, attempt) =>
         Active(s') && next == Doing(wf, s') && attempt == s'.a && comp == s'.Undo?
       case CompleteExecution => s'.Finished?
       case CompensatedExecution => s'.Undone?
       case FailExecution(_) => s'.StuckForward? || s'.StuckUndo?
       case _ => false
  }

  lemma {:induction false} AppendPending(rows: seq<ActivityRow>, r: ActivityRow)
    requires CompletedInOrder(rows) && DeadRowsFailed(rows) && r.status == RowPending && !r.deadLettered
    ensures CompletedInOrder(rows + [r]) && DeadRowsFailed(rows + [r])
  {
  }

  /** A settled ledger extended by the pending row of the attempt under way refines the resumed state. */
  lemma {:induction false} PendingRefines(wf: Workflow, rows: seq<ActivityRow>, r: ActivityRow, t: Tables)
    requires Replay(wf, rows).Some? && CompletedInOrder(rows) && DeadRowsFailed(rows)
    requires var s := Resume(Replay(wf, rows).value); IsAttempt(wf, s, r) && t.status == StatusOf(s)
    requires Sound(t) && t.rows == rows + [r] && t.current == r.name && r.status == RowPending && !r.deadLettered
    ensures Refines(wf, t) && State(wf, t) == Resume(Replay(wf, rows).value)
  {
    hide Sound, UndoPlan, CompletedInOrder, DeadRowsFailed;
    AppendPending(rows, r);
    assert Init(t.rows) == rows;
  }

  lemma {:induction false} LaunchRefines(wf: Workflow, t: Tables, status: ExecutionStatus, name: string,
      attempt: Attempt,
                      event: Event, tier: int)
    requires Sensible(wf) && Sound(t) && CompletedInOrder(t.rows) && DeadRowsFailed(t.rows)
    requires Replay(wf, t.rows).Some?
    requires var s := Resume(Replay(wf, t.rows).value);
             Valid(wf, s) && Active(s) && name == Doing(wf, s) && attempt == s.a && status == StatusOf(s)
    requires FitsInt32(tier) && Sound(Launch(t, status, name, attempt, event, tier).t)
    ensures var r := Launch(t, status, name, attempt, event, tier);
            r.ok && Refines(wf, r.t) && State(wf, r.t) == Resume(Replay(wf, t.rows).value)
  {
    hide Sound, UndoPlan, CompletedInOrder, DeadRowsFailed, Refines, State, KeyTaken, HasRow;
    AttemptIsFresh(wf, t.rows);
    SoundKeysTell(t, name, attempt);
    var r := Launch(t, status, name, attempt, event, tier);
    PendingRefines(wf, t.rows, r.t.rows[|t.rows|], r.t);
  }

  lemma {:induction false} SoundKeysTell(t: Tables, name: string, attempt: nat)
    requires Sound(t)
    ensures KeyTaken(t.rows, Keys.Key(t.exec, name, attempt)) <==> HasRow(t.rows, name, attempt)
  {
    KeysTell(t, name, attempt);
  }

  lemma {:induction false} FollowUpLaunch(wf: Workflow, t1: Tables, tx: Tx)
    requires Sensible(wf) && Sound(t1) && CompletedInOrder(t1.rows) && DeadRowsFailed(t1.rows)
    requires Replay(wf, t1.rows).Some? && IsLaunch(tx) && Lawful(wf, t1, tx)
    requires CallsFor(wf, Resume(Replay(wf, t1.rows).value), t1.status, tx)
    ensures var r := Commit(t1, tx);
            r.ok && Refines(wf, r.t) && State(wf, r.t) == Resume(Replay(wf, t1.rows).value)
  {
    CommitKeepsSound(wf, t1, tx);
    match tx
    case ScheduleNextActivity(next, attempt, tier) =>
      if attempt > 1 { TierExact(attempt); }
      LaunchRefines(wf, t1, t1.status, next, attempt,
                    ActivityScheduled(next, if attempt == 1 then None else Some(attempt), false), tier);
    case StartCompensating(next, attempt, manual) =>
      LaunchRefines(wf, t1, Compensating, next, attempt,
                    CompensationStarted(next, if manual then Some(attempt) else None, manual), 0);
    case RetryActivity(comp, next, attempt) =>
      if comp {
        LaunchRefines(wf, t1, Compensating, next, attempt, CompensationStarted(next, Some(attempt), true), 0);
      } else {
        LaunchRefines(wf, t1, Running, next, attempt, ActivityScheduled(next, Some(attempt), true), 0);
      }
  }

  lemma {:induction false} StopKeepsSound(t: Tables, tx: Tx)
    requires Sound(t) && InRange(t, tx) && !IsLaunch(tx) && !IsSettle(tx)
    ensures Sound(Commit(t, tx).t) && Commit(t, tx).ok
    ensures var t' := Commit(t, tx).t; t'.rows == t.rows && t'.current == t.current
  {
  }

  lemma {:induction false} FollowUpStop(wf: Workflow, t: Tables, t1: Tables, s': Saga, tx: Tx)
    requires SettledInto(wf, t, t1, s') && CallsFor(wf, s', t1.status, tx) && !IsLaunch(tx)
    ensures Commit(t1, tx).ok && Refines(wf, Commit(t1, tx).t) && State(wf, Commit(t1, tx).t) == s'
  {
    hide Sound, UndoPlan, CompletedInOrder, DeadRowsFailed;
    StopKeepsSound(t1, tx);
    LedgerIsSettled(wf, t1.rows, |t1.rows| - 1);
  }

  /** A whole call that settles the pending row and follows up as the new state calls for. */
  lemma {:induction false} TwoTransactions(wf: Workflow, t: Tables, call: Call, tx: Tx, s': Saga, tx': Tx)
    requires Sensible(wf) && Refines(wf, t) && Active(State(wf, t))
    requires Settles(wf, State(wf, t), tx, s') && tx.id == |t.rows| - 1
    requires First(wf, t, call) == Do(tx) && Second(wf, t.status, Commit(t, tx).t, call) == Do(tx')
    requires CallsFor(wf, s', t.status, tx')
    ensures StepsTo(wf, Handle(wf, t, call), s')
  {
    var t1 := Commit(t, tx).t;
    SettleLast(wf, t, tx, s');
    if IsLaunch(tx') {
      SecondIsLawful(wf, t.status, t1, call);
      FollowUpLaunch(wf, t1, tx');
    } else {
      FollowUpStop(wf, t, t1, s', tx');
    }
  }

  /******* One delivery *******/

  ghost predicate StepsTo(wf: Workflow, r: Reply, s': Saga) {
    r.ok && Refines(wf, r.t) && State(wf, r.t) == s'
  }

  /** After a settled row the engine's scan continues the plan. */
  lemma {:induction false} ScanAfterSettling(wf: Workflow, t: Tables, t1: Tables, s': Saga)
    requires Sensible(wf) && SettledInto(wf, t, t1, s')
    ensures NextCompensation(wf, t1.rows) ==
            if Tried(wf, s') < |Plan(wf, s')| then Some(Plan(wf, s')[Tried(wf, s')]) else None
  {
    NextContinuesPlan(wf, t1.rows);
  }

  lemma {:induction false} SuccessDecision(wf: Workflow, t: Tables, t1: Tables)
    requires Sensible(wf) && Refines(wf, t) && Active(State(wf, t))
    requires SettledInto(wf, t, t1, OnSuccess(wf, State(wf, t)))
    ensures var d := Second(wf, t.status, t1, ReportSuccess(|t.rows| - 1));
            d.Do? && CallsFor(wf, OnSuccess(wf, State(wf, t)), t.status, d.tx)
  {
    hide Second, Sound, CallsFor, NextCompensation, UndoPlan;
    var s := State(wf, t);
    DoingKind(wf, s);
    ScanAfterSettling(wf, t, t1, OnSuccess(wf, s));
    SuccessFollowUp(wf, t1, |t.rows| - 1, s);
  }

  lemma {:induction false} SuccessFollowUp(wf: Workflow, t1: Tables, id: nat, s: Saga)
    requires Valid(wf, s) && Active(s) && t1.status == StatusOf(s)
    requires s.Forward? ==> PositionOf(wf, Doing(wf, s)) == Some(s.k)
    requires id < |t1.rows| && t1.rows[id].name == Doing(wf, s)
    requires var s' := OnSuccess(wf, s);
             NextCompensation(wf, t1.rows) ==
             if Tried(wf, s') < |Plan(wf, s')| then Some(Plan(wf, s')[Tried(wf, s')]) else None
    ensures var d := Second(wf, t1.status, t1, ReportSuccess(id));
            d.Do? && CallsFor(wf, OnSuccess(wf, s), t1.status, d.tx)
  {
    hide UndoPlan, Listing, DetermineNext, PositionOf;
  }

  lemma {:induction false} SuccessStep(wf: Workflow, t: Tables)
    requires Sensible(wf) && Refines(wf, t) && Active(State(wf, t))
    ensures StepsTo(wf, Handle(wf, t, ReportSuccess(|t.rows| - 1)), OnSuccess(wf, State(wf, t)))
  {
    var id := |t.rows| - 1;
    var s' := OnSuccess(wf, State(wf, t));
    var tx := CompleteActivity(id);
    SettleLast(wf, t, tx, s');
    var t1 := Commit(t, tx).t;
    SuccessDecision(wf, t, t1);
    TwoTransactions(wf, t, ReportSuccess(id), tx, s', Second(wf, t.status, t1, ReportSuccess(id)).tx);
  }

  lemma {:induction false} LimitIsBacked(wf: Workflow, name: string)
    requires Backed(wf)
    ensures Limit(wf, name) <= 64
  {
  }

  lemma {:induction false} RetryDecision(wf: Workflow, t: Tables, t1: Tables)
    requires Sensible(wf) && Refines(wf, t) && Active(State(wf, t))
    requires State(wf, t).a < Limit(wf, Doing(wf, State(wf, t))) && State(wf, t).a < 64
    requires SettledInto(wf, t, t1, OnRetry(State(wf, t)))
    requires Last(t1.rows).name == Last(t.rows).name && Last(t1.rows).attempt == Last(t.rows).attempt
    ensures var d := Second(wf, t.status, t1, ReportFailure(|t.rows| - 1, false));
            d.Do? && CallsFor(wf, OnRetry(State(wf, t)), t.status, d.tx)
  {
    hide Refines, State, Sound, UndoPlan, CompletedInOrder, DeadRowsFailed, Replay;
    RefinesFacts(wf, t);
    DoingKind(wf, State(wf, t));
    assert RetriesLeft(wf, Last(t1.rows), false);
  }

  lemma {:induction false} GiveUpDecision(wf: Workflow, t: Tables, t1: Tables, nonRetryable: bool)
    requires Sensible(wf) && Refines(wf, t) && Active(State(wf, t))
    requires State(wf, t).a >= Limit(wf, Doing(wf, State(wf, t))) || nonRetryable
    requires SettledInto(wf, t, t1, OnGivingUp(wf, State(wf, t)))
    requires Last(t1.rows).name == Last(t.rows).name && Last(t1.rows).attempt == Last(t.rows).attempt
    ensures var d := Second(wf, t.status, t1, ReportFailure(|t.rows| - 1, nonRetryable));
            d.Do? && CallsFor(wf, OnGivingUp(wf, State(wf, t)), t.status, d.tx)
  {
    hide Second, Sound, CallsFor, NextCompensation, UndoPlan;
    var s := State(wf, t);
    DoingKind(wf, s);
    ScanAfterSettling(wf, t, t1, OnGivingUp(wf, s));
    GiveUpFollowUp(wf, t.status, t1, |t.rows| - 1, nonRetryable, s);
  }

  /** Turning back happens when there is something to undo, and only from the way forward. */
  lemma {:induction false} GiveUpFollowUp(wf: Workflow, before: ExecutionStatus, t1: Tables, id: nat,
      nonRetryable: bool, s: Saga)
    requires Valid(wf, s) && Active(s) && before == StatusOf(s)
    requires id < |t1.rows| && t1.rows[id].name == Doing(wf, s) && t1.rows[id].attempt == s.a
    requires s.a >= Limit(wf, Doing(wf, s)) || nonRetryable
    requires var s' := OnGivingUp(wf, s);
             NextCompensation(wf, t1.rows) ==
             if Tried(wf, s') < |Plan(wf, s')| then Some(Plan(wf, s')[Tried(wf, s')]) else None
    ensures var d := Second(wf, before, t1, ReportFailure(id, nonRetryable));
            d.Do? && CallsFor(wf, OnGivingUp(wf, s), before, d.tx)
  {
    hide UndoPlan, Listing, DetermineNext, PositionOf;
  }

  lemma {:induction false} FailureStep(wf: Workflow, t: Tables, nonRetryable: bool)
    requires Sensible(wf) && Refines(wf, t) && Active(State(wf, t))
    requires OnFailure(wf, State(wf, t), nonRetryable) == OnRetry(State(wf, t)) ==> State(wf, t).a < 64
    ensures StepsTo(wf, Handle(wf, t, ReportFailure(|t.rows| - 1, nonRetryable)),
                    OnFailure(wf, State(wf, t), nonRetryable))
  {
    hide Second, Handle, Sound, UndoPlan;
    var s, id := State(wf, t), |t.rows| - 1;
    var s' := OnFailure(wf, s, nonRetryable);
    var left := s.a < Limit(wf, Doing(wf, s)) && !nonRetryable;
    var tx := if left then FailActivity(id) else DeadLetterActivity(id);
    DoingKind(wf, s);
    assert First(wf, t, ReportFailure(id, nonRetryable)) == Do(tx);
    SettleLast(wf, t, tx, s');
    var t1 := Commit(t, tx).t;
    if left { RetryDecision(wf, t, t1); } else { GiveUpDecision(wf, t, t1, nonRetryable); }
    TwoTransactions(wf, t, ReportFailure(id, nonRetryable), tx, s',
                    Second(wf, t.status, t1, ReportFailure(id, nonRetryable)).tx);
  }

  /******* One outcome per activity id *******/

  datatype Outcome = Succeeds | Fails(nonRetryable: bool)

  type Outcomes = nat -> Outcome

  /** A result delivered for an id, or an operator's retry. */
  datatype Action =
    | Deliver(id: nat)
    | RetryComp(acts: seq<ActivityRow>)
    | RetryDead(id: nat)

  function CallOf(o: Outcomes, a: Action): Call {
    match a
    case Deliver(id) => if o(id).Succeeds? then ReportSuccess(id) else ReportFailure(id, o(id).nonRetryable)
    case RetryComp(acts) => RetryCompensation(acts)
    case RetryDead(id) => RetryDeadLettered(id)
  }

  function Act(wf: Workflow, t: Tables, o: Outcomes, a: Action): Tables {
    Handle(wf, t, CallOf(o, a)).t
  }

  /**
   * Retries see a listing the database could give. A dead-lettered row is retried only in a failed
   * execution, and a forward one only if no compensation was ever started.
   */
  ghost predicate Admissible(wf: Workflow, t: Tables, a: Action) {
    match a
    case Deliver(_) => true
    case RetryComp(acts) => IsListing(t.rows, acts)
    case RetryDead(id) =>
      t.status == Failed &&
      (id < |t.rows| && IsForward(wf, t.rows[id].name) ==> forall r | r in t.rows :: IsForward(wf, r.name))
  }

  /** Settled rows are settled the way their outcome says. */
  ghost predicate Agrees(t: Tables, o: Outcomes) {
    forall i | 0 <= i < |t.rows| && Settled(t.rows[i]) :: t.rows[i].status == RowCompleted <==> o(i).Succeeds?
  }

  /** Where an outcome takes the machine. */
  ghost function Ideal(wf: Workflow, s: Saga, o: Outcome): Saga
    requires Valid(wf, s) && Active(s)
  {
    match o
    case Succeeds => OnSuccess(wf, s)
    case Fails(nonRetryable) => OnFailure(wf, s, nonRetryable)
  }

  lemma {:induction false} SettledBeforeLast(wf: Workflow, t: Tables, i: nat)
    requires Refines(wf, t) && i < |t.rows|
    ensures Settled(t.rows[i]) <==> !(Active(State(wf, t)) && i == |t.rows| - 1)
  {
    if Last(t.rows).status == RowPending {
      if i < |t.rows| - 1 { LedgerIsSettled(wf, Init(t.rows), i); }
    } else {
      LedgerIsSettled(wf, t.rows, i);
    }
  }

  /** The id whose result the engine waits for. */
  ghost predicate Awaited(wf: Workflow, t: Tables, id: nat)
    requires Refines(wf, t)
  {
    Active(State(wf, t)) && id == |t.rows| - 1
  }

  predicate IsReport(call: Call) {
    call.ReportSuccess? || call.ReportFailure?
  }

  /** Rows other than `id` are as before, and what was added is unsettled. */
  ghost predicate OthersKept(rows: seq<ActivityRow>, rows': seq<ActivityRow>, id: int) {
    && |rows| <= |rows'|
    && (forall i | 0 <= i < |rows| && i != id :: rows'[i] == rows[i])
    && (forall i | |rows| <= i < |rows'| :: !Settled(rows'[i]))
  }

  ghost predicate HasStatus(rows: seq<ActivityRow>, id: nat, status: RowStatus) {
    id < |rows| && rows[id].status == status
  }

  lemma {:induction false} CommitKeepsOthers(t: Tables, tx: Tx)
    requires InRange(t, tx)
    ensures OthersKept(t.rows, Commit(t, tx).t.rows, if IsSettle(tx) then tx.id else -1)
    ensures IsSettle(tx) ==> Commit(t, tx).ok
    ensures IsSettle(tx) ==>
              HasStatus(Commit(t, tx).t.rows, tx.id, if tx.CompleteActivity? then RowCompleted else RowFailed)
  {
  }

  /** A call touches no row but its own, and a report that succeeds leaves its row settled as reported. */
  lemma {:induction false} HandleKeepsOthers(wf: Workflow, t: Tables, call: Call)
    ensures OthersKept(t.rows, Handle(wf, t, call).t.rows, if IsReport(call) then call.id else -1)
    ensures IsReport(call) && Handle(wf, t, call).ok ==>
              HasStatus(Handle(wf, t, call).t.rows, call.id, if call.ReportSuccess? then RowCompleted else RowFailed)
  {
    var d := First(wf, t, call);
    if d.Do? {
      CommitKeepsOthers(t, d.tx);
      var r := Commit(t, d.tx);
      var d2 := Second(wf, t.status, r.t, call);
      if r.ok && d2.Do? {
        CommitKeepsOthers(r.t, d2.tx);
      }
    }
  }

  lemma {:induction false} HandleKeepsNames(wf: Workflow, t: Tables, call: Call, i: nat)
    requires i < |t.rows|
    ensures i < |Handle(wf, t, call).t.rows|
    ensures var r := Handle(wf, t, call).t.rows[i]; r.name == t.rows[i].name && r.attempt == t.rows[i].attempt
  {
    var d := First(wf, t, call);
    if d.Do? {
      CommitKeepsRows(t, d.tx);
      var r := Commit(t, d.tx);
      var d2 := Second(wf, t.status, r.t, call);
      if r.ok && d2.Do? { CommitKeepsRows(r.t, d2.tx); }
    }
  }

  lemma {:induction false} UnawaitedIsIgnored(wf: Workflow, t: Tables, o: Outcomes, id: nat)
    requires Refines(wf, t) && Agrees(t, o) && !Awaited(wf, t, id)
    ensures Handle(wf, t, CallOf(o, Deliver(id))) == Reply(t, id < |t.rows|)
  {
    if id < |t.rows| {
      SettledBeforeLast(wf, t, id);
      assert First(wf, t, CallOf(o, Deliver(id))) == Return(true);
    }
  }

  /** The awaited result moves the machine as its outcome says; every other delivery changes nothing. */
  lemma {:induction false} DeliveryRefines(wf: Workflow, t: Tables, o: Outcomes, id: nat)
    requires Definition(wf) && Refines(wf, t) && Agrees(t, o)
    ensures Awaited(wf, t, id) ==> StepsTo(wf, Handle(wf, t, CallOf(o, Deliver(id))), Ideal(wf, State(wf, t), o(id)))
    ensures !Awaited(wf, t, id) ==> Act(wf, t, o, Deliver(id)) == t
    ensures id < |t.rows| ==> Handle(wf, t, CallOf(o, Deliver(id))).ok
  {
    if Awaited(wf, t, id) {
      if o(id).Succeeds? {
        SuccessStep(wf, t);
      } else {
        LimitIsBacked(wf, Doing(wf, State(wf, t)));
        FailureStep(wf, t, o(id).nonRetryable);
      }
    } else {
      UnawaitedIsIgnored(wf, t, o, id);
    }
  }

  /** After a delivery for a row that exists, the row is settled as its outcome says, now and for good. */
  lemma {:induction false} DeliverySettles(wf: Workflow, t: Tables, o: Outcomes, a: Action)
    requires Agrees(t, o)
    requires a.Deliver? && a.id < |t.rows| ==> Handle(wf, t, CallOf(o, a)).ok
    ensures Agrees(Act(wf, t, o, a), o)
    ensures a.Deliver? && a.id < |t.rows| ==>
              HasStatus(Act(wf, t, o, a).rows, a.id, if o(a.id).Succeeds? then RowCompleted else RowFailed)
    ensures forall i | 0 <= i < |t.rows| && Settled(t.rows[i]) :: HasStatus(Act(wf, t, o, a).rows, i, t.rows[i].status)
  {
    HandleKeepsOthers(wf, t, CallOf(o, a));
    if a.Deliver? && a.id >= |t.rows| {
      assert First(wf, t, CallOf(o, a)) == Return(false);
    }
  }

  lemma {:induction false} FirstFailedIsListed(wf: Workflow, t: Tables, acts: seq<ActivityRow>)
    requires IsListing(t.rows, acts)
    ensures forall r | r in acts :: r in t.rows && HasRow(t.rows, r.name, r.attempt)
    ensures FirstFailedCompensation(wf, acts).None? ==>
              forall r | r in t.rows && r.deadLettered :: IsForward(wf, r.name)
  {
    SameMembers(t.rows, acts);
    forall r | r in acts ensures HasRow(t.rows, r.name, r.attempt) {
      var i :| 0 <= i < |t.rows| && t.rows[i] == r;
    }
  }

  /**
   * Whatever dead-lettered row is retried, either its successor exists already or it is the attempt the machine
   * resumes.
   */
  lemma {:induction false} RetryTarget(wf: Workflow, t: Tables, r: ActivityRow)
    requires Sensible(wf) && Refines(wf, t) && t.status == Failed
    requires r in t.rows && r.deadLettered
    requires IsForward(wf, r.name) ==> forall x | x in t.rows :: IsForward(wf, x.name)
    ensures var s := Resume(State(wf, t));
            || HasRow(t.rows, r.name, r.attempt + 1)
            || (Valid(wf, s) && Active(s) && r.name == Doing(wf, s) && r.attempt + 1 == s.a)
  {
    var s := State(wf, t);
    LedgerFollowed(wf, t.rows);
    assert Followed(wf, t.rows, Resume(s), r);
    if s.StuckUndo? {
      var last := LastStep(wf, t.rows);
      DoingKind(wf, last);
      assert Last(t.rows) in t.rows;
    }
  }

  lemma {:induction false} RefusedLaunch(t: Tables, tx: Tx)
    requires Sound(t) && (tx.StartCompensating? || tx.RetryActivity?) && HasRow(t.rows, tx.next, tx.attempt)
    ensures Commit(t, tx) == Reply(t, false)
  {
  }

  lemma {:induction false} ResumeOrRefuse(wf: Workflow, t: Tables, r: ActivityRow, tx: Tx)
    requires Sensible(wf) && Refines(wf, t) && t.status == Failed
    requires r in t.rows && r.deadLettered && HasRow(t.rows, r.name, r.attempt)
    requires IsForward(wf, r.name) ==> forall x | x in t.rows :: IsForward(wf, x.name)
    requires (tx.StartCompensating? && tx.manual && !IsForward(wf, r.name)) ||
             (tx.RetryActivity? && tx.compensation == !IsForward(wf, r.name))
    requires tx.next == r.name && tx.attempt == r.attempt + 1
    ensures var t' := Commit(t, tx).t;
            || t' == t
            || (Refines(wf, t') && State(wf, t') == Resume(State(wf, t)) != State(wf, t))
  {
    RetryTarget(wf, t, r);
    if HasRow(t.rows, tx.next, tx.attempt) {
      RefusedLaunch(t, tx);
    } else {
      DoingKind(wf, Resume(State(wf, t)));
      FollowUpLaunch(wf, t, tx);
    }
  }

  /** An operator's retry resumes the stuck attempt, or is refused and changes nothing. */
  lemma {:induction false} RetryRefines(wf: Workflow, t: Tables, o: Outcomes, a: Action)
    requires Sensible(wf) && Refines(wf, t) && !a.Deliver? && Admissible(wf, t, a)
    ensures var t' := Act(wf, t, o, a);
            || t' == t
            || (t.status == Failed && Refines(wf, t') && State(wf, t') == Resume(State(wf, t)) != State(wf, t))
  {
    var d := First(wf, t, CallOf(o, a));
    if d.Do? {
      var r: ActivityRow;
      if a.RetryComp? {
        FirstFailedIsListed(wf, t, a.acts);
        r := FirstFailedCompensation(wf, a.acts).value;
      } else {
        r := t.rows[a.id];
      }
      ResumeOrRefuse(wf, t, r, d.tx);
      assert Act(wf, t, o, a) == Commit(t, d.tx).t;
    }
  }

  /******* Whole runs *******/

  function Run(wf: Workflow, t: Tables, o: Outcomes, actions: seq<Action>): Tables {
    if actions == [] then t
    else Act(wf, Run(wf, t, o, actions[..|actions| - 1]), o, actions[|actions| - 1])
  }

  ghost predicate AllAdmissible(wf: Workflow, t: Tables, o: Outcomes, actions: seq<Action>) {
    actions != [] ==>
      && AllAdmissible(wf, t, o, actions[..|actions| - 1])
      && Admissible(wf, Run(wf, t, o, actions[..|actions| - 1]), actions[|actions| - 1])
  }

  lemma {:induction false} RunSnoc(wf: Workflow, t: Tables, o: Outcomes, actions: seq<Action>, a: Action)
    ensures Run(wf, t, o, actions + [a]) == Act(wf, Run(wf, t, o, actions), o, a)
    ensures AllAdmissible(wf, t, o, actions) && Admissible(wf, Run(wf, t, o, actions), a) ==>
              AllAdmissible(wf, t, o, actions + [a])
  {
  }

  /**
   * The action does to the machine what it should: an awaited result moves it by its outcome, an operator's
   * retry resumes it where it is stuck or is refused, and anything else changes nothing at all.
   */
  ghost predicate ActsAsSaga(wf: Workflow, t: Tables, t': Tables, o: Outcomes, a: Action)
    requires Refines(wf, t) && Refines(wf, t')
  {
    match a
    case Deliver(id) =>
      if Awaited(wf, t, id) then State(wf, t') == Ideal(wf, State(wf, t), o(id)) else t' == t
    case _ =>
      t' == t || (t.status == Failed && State(wf, t') == Resume(State(wf, t)) != State(wf, t))
  }

  lemma {:induction false} ActRefines(wf: Workflow, t: Tables, o: Outcomes, a: Action)
    requires Definition(wf) && Refines(wf, t) && Agrees(t, o) && Admissible(wf, t, a)
    ensures Refines(wf, Act(wf, t, o, a)) && Agrees(Act(wf, t, o, a), o)
    ensures ActsAsSaga(wf, t, Act(wf, t, o, a), o, a)
  {
    if a.Deliver? {
      DeliveryRefines(wf, t, o, a.id);
    } else {
      RetryRefines(wf, t, o, a);
    }
    DeliverySettles(wf, t, o, a);
  }

  lemma {:induction false} RunRefines(wf: Workflow, exec: string, o: Outcomes, actions: seq<Action>)
    requires Definition(wf) && AllAdmissible(wf, Create(exec, wf), o, actions)
    ensures var t := Run(wf, Create(exec, wf), o, actions); Refines(wf, t) && Agrees(t, o)
  {
    if actions == [] {
      CreateRefines(exec, wf);
    } else {
      RunRefines(wf, exec, o, actions[..|actions| - 1]);
      ActRefines(wf, Run(wf, Create(exec, wf), o, actions[..|actions| - 1]), o, actions[|actions| - 1]);
    }
  }

  /**
   * Refinement: every state of every run stands for a state of the machine, the first one for its start,
   * and every further action is the step of the machine that it should be, or no step.
   */
  lemma {:induction false} EngineRefinesSaga(wf: Workflow, exec: string, o: Outcomes, actions: seq<Action>, a: Action)
    requires Definition(wf) && AllAdmissible(wf, Create(exec, wf), o, actions + [a])
    ensures Refines(wf, Create(exec, wf)) && State(wf, Create(exec, wf)) == Forward(0, 1)
    ensures var t, t' := Run(wf, Create(exec, wf), o, actions), Run(wf, Create(exec, wf), o, actions + [a]);
            Refines(wf, t) && Refines(wf, t') && ActsAsSaga(wf, t, t', o, a)
  {
    CreateRefines(exec, wf);
    assert (actions + [a])[..|actions|] == actions;
    RunRefines(wf, exec, o, actions);
    ActRefines(wf, Run(wf, Create(exec, wf), o, actions), o, a);
  }
}
