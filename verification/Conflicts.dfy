/** Two outcomes for one id: when a second report keeps the execution in its saga, and what it does otherwise. */
module Conflicts {
  import opened Models
  import opened Backoff
  import opened Compensation
  import opened Tables
  import opened Adversary
  import opened Saga
  import opened Refinement
  import opened SagaTheorems

  /******* Two outcomes for one id *******/

  /**
   * A success that arrives after a timeout was reported for the same row leaves two rows pending: the retry
   * of the activity and its successor. One outcome per id is needed for a single pending row.
   */
  lemma {:induction false} LateSuccessForks(wf: Workflow, t: Tables)
    requires Sensible(wf) && Refines(wf, t) && State(wf, t).Forward? && State(wf, t).k + 1 < |wf|
    requires State(wf, t).a < Limit(wf, Doing(wf, State(wf, t))) && State(wf, t).a < 64
    ensures var id := |t.rows| - 1;
            var t1 := Handle(wf, t, ReportFailure(id, false));
            var t2 := Handle(wf, t1.t, ReportSuccess(id));
            t1.ok && t2.ok && IsPending(t2.t, id + 1) && IsPending(t2.t, id + 2)
  {
    hide Handle, Refines, State, UndoPlan;
    RefinesFacts(wf, t);
    var s, id := State(wf, t), |t.rows| - 1;
    var call := ReportFailure(id, false);
    FailureStep(wf, t, false);
    ReportAddsRow(wf, t, call);
    HandleKeepsOthers(wf, t, call);
    HandleKeepsNames(wf, t, call, id);
    SuccessOfFailedRow(wf, Handle(wf, t, call).t, id, s.k);
  }

  lemma {:induction false} SuccessOfFailedRow(wf: Workflow, t: Tables, id: nat, k: nat)
    requires Sensible(wf) && Refines(wf, t) && State(wf, t).Forward? && State(wf, t).k == k && k + 1 < |wf|
    requires id + 2 == |t.rows| && t.rows[id].status == RowFailed && t.rows[id].name == wf[k].name
    ensures var r := Handle(wf, t, ReportSuccess(id)); r.ok && IsPending(r.t, id + 1) && IsPending(r.t, id + 2)
  {
    hide Refines, State, Handle, UndoPlan;
    RefinesFacts(wf, t);
    var tx := CompleteActivity(id);
    var t1 := Commit(t, tx).t;
    PositionOfName(wf, k);
    SuccessorIsFresh(wf, t);
    SettleKeepsSound(t, tx);
    KeysTell(t1, wf[k + 1].name, 1);
    SuccessSchedules(wf, t, id, k);
  }

  lemma {:induction false} SuccessSchedules(wf: Workflow, t: Tables, id: nat, k: nat)
    requires id < |t.rows| && t.rows[id].status != RowCompleted && t.status == Running
    requires PositionOf(wf, t.rows[id].name) == Some(k) && k + 1 < |wf|
    ensures Handle(wf, t, ReportSuccess(id)) ==
            Commit(Commit(t, CompleteActivity(id)).t, ScheduleNextActivity(wf[k + 1].name, 1, 0))
  {
  }

  lemma {:induction false} SuccessorIsFresh(wf: Workflow, t: Tables)
    requires Sensible(wf) && Refines(wf, t) && State(wf, t).Forward? && State(wf, t).k + 1 < |wf|
    ensures forall i | 0 <= i < |t.rows| :: t.rows[i].name != wf[State(wf, t).k + 1].name
  {
    hide Sound, CompletedInOrder, UndoPlan, StatusOf;
    var s, init := State(wf, t), Init(t.rows);
    LedgerEarlier(wf, init);
    forall i | 0 <= i < |t.rows| ensures t.rows[i].name != wf[s.k + 1].name {
      if i < |init| {
        assert init[i] == t.rows[i] && Earlier(wf, s, init[i]);
      }
    }
  }

  /******* When a second outcome keeps the saga *******/

  /** After a success and after a failure of one attempt different attempts come next. */
  lemma {:induction false} OneFollows(wf: Workflow, s: Saga, won: Saga, lost: Saga, r: ActivityRow)
    requires WellFormed(wf) && Valid(wf, s) && Active(s)
    requires won == OnSuccess(wf, s) && (lost == OnRetry(s) || lost == OnGivingUp(wf, s))
    ensures !(IsAttempt(wf, Resume(won), r) && IsAttempt(wf, Resume(lost), r))
  {
    if Valid(wf, Resume(lost)) && Active(Resume(lost)) { DoingKind(wf, Resume(lost)); }
    if Valid(wf, Resume(won)) && Active(Resume(won)) { DoingKind(wf, Resume(won)); }
  }

  /** `r'` is `r` settled the other way. */
  ghost predicate Flipped(r: ActivityRow, r': ActivityRow) {
    && Settled(r) && Settled(r') && r'.status != r.status && r'.name == r.name && r'.attempt == r.attempt
  }

  /** Settling a row the other way changes which attempt may follow. */
  lemma {:induction false} FlipChangesNext(wf: Workflow, rows: seq<ActivityRow>, r': ActivityRow, next: ActivityRow)
    requires WellFormed(wf) && rows != [] && Replay(wf, rows).Some? && Flipped(Last(rows), r')
    requires IsAttempt(wf, Resume(Replay(wf, rows).value), next)
    ensures var rows' := Init(rows) + [r'];
            Replay(wf, rows').Some? ==> !IsAttempt(wf, Resume(Replay(wf, rows').value), next)
  {
    hide UndoPlan, OnSuccess, OnGivingUp, Resume, Replay;
    var rows' := Init(rows) + [r'];
    var s := LastStep(wf, rows);
    assert rows'[..|rows'| - 1] == rows[..|rows| - 1];
    if Replay(wf, rows').Some? {
      var s' := LastStep(wf, rows');
      assert s' == s;
      var a, b := Replay(wf, rows).value, Replay(wf, rows').value;
      if r'.status == RowCompleted { OneFollows(wf, s, b, a, next); } else { OneFollows(wf, s, a, b, next); }
    }
  }

  /** So no run of the machine has an inner row settled the other way. */
  lemma {:induction false} FlipBreaksReplay(wf: Workflow, rows: seq<ActivityRow>, id: nat, r': ActivityRow)
    requires WellFormed(wf) && Replay(wf, rows).Some? && id < |rows| - 1 && Flipped(rows[id], r')
    ensures Replay(wf, rows[id := r']).None?
  {
    hide UndoPlan, IsAttempt, Resume;
    var rows' := rows[id := r'];
    var init := rows[..|rows| - 1];
    var s := LastStep(wf, rows);
    assert rows'[..|rows'| - 1] == init[id := r'];
    if id < |rows| - 2 {
      FlipBreaksReplay(wf, init, id, r');
    } else {
      assert init[id := r'] == Init(init) + [r'];
      FlipChangesNext(wf, init, r', rows[|rows| - 1]);
    }
  }

  /** Nor do tables with one settled the other way, behind which a row stands, settled or pending. */
  lemma {:induction false} FlipBreaksAbs(wf: Workflow, t: Tables, t': Tables, id: nat)
    requires Sensible(wf) && Refines(wf, t) && id < |t.rows| - 1 && |t'.rows| == |t.rows|
    requires t'.rows == t.rows[id := t'.rows[id]] && Flipped(t.rows[id], t'.rows[id])
    ensures Abs(wf, t'.rows).None?
  {
    hide UndoPlan, Sound, CompletedInOrder, DeadRowsFailed, IsAttempt, Resume;
    var r' := t'.rows[id];
    if Active(State(wf, t)) {
      var init := Init(t.rows);
      assert Init(t'.rows) == init[id := r'];
      if id < |t.rows| - 2 {
        FlipBreaksReplay(wf, init, id, r');
      } else {
        assert init[id := r'] == Init(init) + [r'];
        FlipChangesNext(wf, init, r', Last(t.rows));
      }
    } else {
      FlipBreaksReplay(wf, t.rows, id, r');
    }
  }

  function Reported(call: Call): RowStatus
    requires IsReport(call)
  {
    if call.ReportSuccess? then RowCompleted else RowFailed
  }

  /** The report says of a settled row what its status does not. */
  ghost predicate Contradicts(t: Tables, call: Call) {
    IsReport(call) && call.id < |t.rows| && Settled(t.rows[call.id]) && t.rows[call.id].status != Reported(call)
  }

  /** Rows of a ledger have a retry policy to look up. */
  lemma {:induction false} LedgerHasPolicies(wf: Workflow, rows: seq<ActivityRow>, i: nat)
    requires WellFormed(wf) && Replay(wf, rows).Some? && i < |rows|
    ensures PolicyOf(wf, rows[i].name).Some?
  {
    hide UndoPlan, PolicyOf, Resume;
    var s := LastStep(wf, rows);
    if i < |rows| - 1 { LedgerHasPolicies(wf, rows[..|rows| - 1], i); } else { DoingKind(wf, s); }
  }

  lemma {:induction false} RowsHavePolicies(wf: Workflow, t: Tables, i: nat)
    requires WellFormed(wf) && Refines(wf, t) && i < |t.rows| && Settled(t.rows[i])
    ensures PolicyOf(wf, t.rows[i].name).Some?
  {
    hide Sound, UndoPlan, PolicyOf, Resume, CompletedInOrder, DeadRowsFailed;
    SettledBeforeLast(wf, t, i);
    if Active(State(wf, t)) { LedgerHasPolicies(wf, Init(t.rows), i); } else { LedgerHasPolicies(wf, t.rows, i); }
  }

  /** What a handler's second transaction leaves: the rows as they are, or one pending row more. */
  ghost predicate OneMore(rows: seq<ActivityRow>, rows': seq<ActivityRow>) {
    rows' == rows || (rows' != [] && Init(rows') == rows && Last(rows').status == RowPending)
  }

  lemma {:induction false} FollowUpAddsOne(t: Tables, tx: Tx)
    requires InRange(t, tx) && !IsSettle(tx)
    ensures OneMore(t.rows, Commit(t, tx).t.rows)
  {
    hide Message, KeyTaken;
  }

  /** A report that contradicts its row settles it the other way, and may launch something behind it. */
  lemma {:induction false} ContradictionFlips(wf: Workflow, t: Tables, call: Call) returns (tx: Tx)
    requires WellFormed(wf) && Refines(wf, t) && Contradicts(t, call)
    ensures First(wf, t, call) == Do(tx) && IsSettle(tx) && tx.id == call.id
    ensures var t1 := Commit(t, tx).t;
            && t1.rows == t.rows[call.id := t1.rows[call.id]] && Flipped(t.rows[call.id], t1.rows[call.id])
            && t1.status == t.status && t1.current == t.current && t1.exec == t.exec
            && t1.rows[call.id].deadLettered == (t.rows[call.id].deadLettered || tx.DeadLetterActivity?)
            && OneMore(t1.rows, Handle(wf, t, call).t.rows)
  {
    hide Refines, Second, PolicyOf, RetriesLeft;
    RowsHavePolicies(wf, t, call.id);
    tx := First(wf, t, call).tx;
    var t1 := Commit(t, tx).t;
    var d := Second(wf, t.status, t1, call);
    if d.Do? { FollowUpAddsOne(t1, d.tx); }
  }

  lemma {:induction false} NoReplayNoRefinement(wf: Workflow, rows: seq<ActivityRow>, t: Tables)
    requires rows != [] && Abs(wf, rows).None? && OneMore(rows, t.rows)
    ensures !Refines(wf, t)
  {
  }

  /** An inner row contradicted: the tables are those of no run of the machine any more. */
  lemma {:induction false} InnerContradiction(wf: Workflow, t: Tables, call: Call)
    requires Sensible(wf) && Refines(wf, t) && Contradicts(t, call) && call.id < |t.rows| - 1
    ensures !Refines(wf, Handle(wf, t, call).t)
  {
    hide Refines, Handle, Commit, Abs, Flipped;
    var tx := ContradictionFlips(wf, t, call);
    var t1 := Commit(t, tx).t;
    FlipBreaksAbs(wf, t, t1, call.id);
    NoReplayNoRefinement(wf, t1.rows, Handle(wf, t, call).t);
  }

  /** A failed end contradicted: its dead-lettered row is completed. */
  lemma {:induction false} FailedEndContradicted(wf: Workflow, t: Tables, call: Call)
    requires Sensible(wf) && Refines(wf, t) && Contradicts(t, call) && call.id == |t.rows| - 1 && call.ReportSuccess?
    ensures !Refines(wf, Handle(wf, t, call).t)
  {
    hide Handle, Commit, Sound, UndoPlan, CompletedInOrder;
    var tx := ContradictionFlips(wf, t, call);
    EndIsDead(wf, t);
    var t2 := Handle(wf, t, call).t;
    assert t2.rows[call.id] == Commit(t, tx).t.rows[call.id];
  }

  lemma {:induction false} EndIsDead(wf: Workflow, t: Tables)
    requires Refines(wf, t) && Last(t.rows).status == RowFailed
    ensures Last(t.rows).deadLettered
  {
    hide Sound, UndoPlan, CompletedInOrder;
  }

  /** The attempt that was the last one of a completed or compensated execution. */
  lemma {:induction false} LastAttempt(wf: Workflow, t: Tables) returns (s: Saga)
    requires WellFormed(wf) && Refines(wf, t) && Last(t.rows).status == RowCompleted
    ensures Replay(wf, Init(t.rows)).Some? && s == Resume(Replay(wf, Init(t.rows)).value)
    ensures IsAttempt(wf, s, Last(t.rows)) && !Last(t.rows).deadLettered
    ensures State(wf, t) == OnSuccess(wf, s) && (State(wf, t).Finished? || State(wf, t).Undone?)
  {
    hide Sound, UndoPlan, CompletedInOrder;
    s := LastStep(wf, t.rows);
  }

  /** The machine before the last row of an ended execution. */
  ghost function BeforeLast(wf: Workflow, t: Tables): Saga
    requires t.rows != [] && Replay(wf, Init(t.rows)).Some?
  {
    Resume(Replay(wf, Init(t.rows)).value)
  }

  /** With attempts left, a late failure of a finished execution leaves a status that is none of going on. */
  lemma {:induction false} LateRetryBreaks(wf: Workflow, t: Tables, call: Call)
    requires Sensible(wf) && Refines(wf, t) && Contradicts(t, call) && call.id == |t.rows| - 1 && call.ReportFailure?
    requires RetriesLeft(wf, Last(t.rows), call.nonRetryable)
    ensures !Refines(wf, Handle(wf, t, call).t)
  {
    hide Sound, UndoPlan, CompletedInOrder, Commit, Tier, DeadRowsFailed, Refines, State, Replay, PolicyOf, RetriesLeft;
    var s := LastAttempt(wf, t);
    RefinesFacts(wf, t);
    var tx := ContradictionFlips(wf, t, call);
    var t1, t2 := Commit(t, tx).t, Handle(wf, t, call).t;
    FailFirst(wf, t, call, tx);
    LimitAt(wf, s, Last(t.rows), call.nonRetryable);
    ReplayOfSettled(wf, t.rows, t1.rows[call.id], s, tx, OnRetry(s));
    LateRetryStatus(wf, t, call, tx);
    GoingOnUnderOldStatus(wf, t1, t2);
  }

  lemma {:induction false} FailFirst(wf: Workflow, t: Tables, call: Call, tx: Tx)
    requires Contradicts(t, call) && call.ReportFailure? && First(wf, t, call) == Do(tx)
    ensures tx ==
            if RetriesLeft(wf, t.rows[call.id], call.nonRetryable) then FailActivity(call.id)
            else DeadLetterActivity(call.id)
  {
    hide RetriesLeft, PolicyOf;
  }

  lemma {:induction false} LimitAt(wf: Workflow, s: Saga, r: ActivityRow, nonRetryable: bool)
    requires IsAttempt(wf, s, r)
    ensures RetriesLeft(wf, r, nonRetryable) <==> s.a < Limit(wf, Doing(wf, s)) && !nonRetryable
  {
    hide UndoPlan;
  }

  lemma {:induction false} LateRetryStatus(wf: Workflow, t: Tables, call: Call, tx: Tx)
    requires Contradicts(t, call) && call.ReportFailure? && First(wf, t, call) == Do(tx) && tx.FailActivity?
    requires RetriesLeft(wf, t.rows[call.id], call.nonRetryable)
    ensures Handle(wf, t, call).t.status == t.status
  {
    hide PolicyOf, Tier, Message, KeyTaken;
  }

  lemma {:induction false} GoingOnUnderOldStatus(wf: Workflow, t1: Tables, t2: Tables)
    requires t1.rows != [] && OneMore(t1.rows, t2.rows) && Last(t1.rows).status != RowPending
    requires Replay(wf, t1.rows).Some? && Active(Replay(wf, t1.rows).value)
    requires t2.status == Completed || t2.status == Compensated
    ensures !Refines(wf, t2)
  {
    hide Sound, UndoPlan, CompletedInOrder, DeadRowsFailed;
  }

  /** What a last failure of a finished execution settles into. */
  lemma {:induction false} LateFailureSettles(wf: Workflow, t: Tables, s: Saga)
    requires Sensible(wf) && Refines(wf, t) && Last(t.rows).status == RowCompleted
    requires Replay(wf, Init(t.rows)).Some? && s == BeforeLast(wf, t) && IsAttempt(wf, s, Last(t.rows))
    requires !Last(t.rows).deadLettered
    ensures SettledInto(wf, t, Commit(t, DeadLetterActivity(|t.rows| - 1)).t, OnGivingUp(wf, s))
  {
    hide Sound, UndoPlan, Replay;
    var tx := DeadLetterActivity(|t.rows| - 1);
    RefinesFacts(wf, t);
    SettleKeepsSound(t, tx);
    ReplayOfSettled(wf, t.rows, Commit(t, tx).t.rows[tx.id], s, tx, OnGivingUp(wf, s));
  }

  /** The handler then turns back or gives up, as it would have done before. */
  lemma {:induction false} LateGiveUp(wf: Workflow, t: Tables, t1: Tables, id: nat, nonRetryable: bool, s: Saga)
    requires Valid(wf, s) && Active(s) && (OnSuccess(wf, s).Finished? || OnSuccess(wf, s).Undone?)
    requires id < |t1.rows| && t.status != Compensating && !RetriesLeft(wf, t1.rows[id], nonRetryable)
    requires var s' := OnGivingUp(wf, s);
             NextCompensation(wf, t1.rows) ==
             if Tried(wf, s') < |Plan(wf, s')| then Some(Plan(wf, s')[Tried(wf, s')]) else None
    ensures var d := Second(wf, t.status, t1, ReportFailure(id, nonRetryable));
            d.Do? && CallsFor(wf, OnGivingUp(wf, s), t1.status, d.tx)
  {
    hide UndoPlan, Listing, DetermineNext, PositionOf, RetriesLeft;
  }

  /**
   * Late failure of the end: without attempts left, a COMPLETED or COMPENSATED execution goes back to where a failure
   * in time would have taken it: it turns back, or fails.
   */
  lemma {:induction false} LateFailureReopens(wf: Workflow, t: Tables, call: Call)
    requires Sensible(wf) && Refines(wf, t) && Contradicts(t, call) && call.id == |t.rows| - 1 && call.ReportFailure?
    requires !RetriesLeft(wf, Last(t.rows), call.nonRetryable)
    ensures Replay(wf, Init(t.rows)).Some? && Valid(wf, BeforeLast(wf, t)) && Active(BeforeLast(wf, t))
    ensures State(wf, t) == OnSuccess(wf, BeforeLast(wf, t))
    ensures StepsTo(wf, Handle(wf, t, call), OnGivingUp(wf, BeforeLast(wf, t)))
  {
    hide Refines, State, Sound, UndoPlan, Replay, Commit, NextCompensation, OnGivingUp, OnSuccess, CallsFor,
        SettledInto, RetriesLeft, PolicyOf, Second;
    var s := LastAttempt(wf, t);
    RefinesFacts(wf, t);
    var tx := ContradictionFlips(wf, t, call);
    FailFirst(wf, t, call, tx);
    CommitKeepsOthers(t, tx);
    LateFailureSettles(wf, t, s);
    var t1, s' := Commit(t, tx).t, OnGivingUp(wf, s);
    ScanAfterSettling(wf, t, t1, s');
    StillNoRetries(wf, t, t1, call);
    LateGiveUp(wf, t, t1, call.id, call.nonRetryable, s);
    LateFollowUp(wf, t, t1, call, s');
  }

  lemma {:induction false} StillNoRetries(wf: Workflow, t: Tables, t1: Tables, call: Call)
    requires Contradicts(t, call) && call.ReportFailure? && |t1.rows| == |t.rows|
    requires t1.rows[call.id].name == t.rows[call.id].name && t1.rows[call.id].attempt == t.rows[call.id].attempt
    ensures RetriesLeft(wf, t1.rows[call.id], call.nonRetryable) <==>
              RetriesLeft(wf, t.rows[call.id], call.nonRetryable)
  {
    hide PolicyOf;
  }

  lemma {:induction false} LateFollowUp(wf: Workflow, t: Tables, t1: Tables, call: Call, s': Saga)
    requires Sensible(wf) && SettledInto(wf, t, t1, s')
    requires First(wf, t, call).Do? && Commit(t, First(wf, t, call).tx) == Reply(t1, true)
    requires var d := Second(wf, t.status, t1, call); d.Do? && CallsFor(wf, s', t1.status, d.tx)
    ensures StepsTo(wf, Handle(wf, t, call), s')
  {
    hide UndoPlan, Sound, CompletedInOrder, DeadRowsFailed, First, Second, Refines, State, Commit, Replay, Lawful;
    var d := Second(wf, t.status, t1, call);
    if IsLaunch(d.tx) {
      SecondIsLawful(wf, t.status, t1, call);
      FollowUpLaunch(wf, t1, d.tx);
    } else {
      FollowUpStop(wf, t, t1, s', d.tx);
    }
  }

  /** So a COMPLETED execution can be taken back to COMPENSATING, or to FAILED when there is nothing to undo. */
  lemma {:induction false} CompletedIsReopened(wf: Workflow, t: Tables, call: Call)
    requires Sensible(wf) && Refines(wf, t) && Contradicts(t, call) && call.id == |t.rows| - 1
    requires t.status == Completed && !RetriesLeft(wf, Last(t.rows), call.nonRetryable)
    ensures Handle(wf, t, call).t.status == if UndoPlan(wf, |wf| - 1) == [] then Failed else Compensating
  {
    hide Refines, State, Handle, RetriesLeft, UndoPlan, Replay;
    RefinesFacts(wf, t);
    FinishedRowIsCompleted(wf, t);
    LateFailureReopens(wf, t, call);
    RefinesFacts(wf, Handle(wf, t, call).t);
  }

  lemma {:induction false} FinishedRowIsCompleted(wf: Workflow, t: Tables)
    requires Refines(wf, t) && State(wf, t).Finished?
    ensures Last(t.rows).status == RowCompleted
  {
    hide Sound, UndoPlan, CompletedInOrder, DeadRowsFailed;
  }

  /** The report finds its row as it should, or comes late for the end of an execution that has finished. */
  ghost predicate Fits(wf: Workflow, t: Tables, call: Call)
    requires IsReport(call)
  {
    || call.id >= |t.rows| || t.rows[call.id].status == RowPending || t.rows[call.id].status == Reported(call)
    || (call.id == |t.rows| - 1 && call.ReportFailure? && !RetriesLeft(wf, t.rows[call.id], call.nonRetryable))
  }

  /**
   * The exact condition, in every state and for every report: the execution stays in its saga if and only if the row
   * does not exist, is pending, or is settled as reported; or it is the last row of an execution that has ended,
   * and its failure is reported with no attempts left.
   */
  lemma {:induction false} ReportExactly(wf: Workflow, t: Tables, call: Call)
    requires Definition(wf) && Refines(wf, t) && IsReport(call)
    ensures Refines(wf, Handle(wf, t, call).t) <==> Fits(wf, t, call)
  {
    hide Refines, State, Handle, RetriesLeft;
    if Contradicts(t, call) {
      if call.id < |t.rows| - 1 {
        InnerContradiction(wf, t, call);
      } else if call.ReportSuccess? {
        FailedEndContradicted(wf, t, call);
      } else if RetriesLeft(wf, Last(t.rows), call.nonRetryable) {
        LateRetryBreaks(wf, t, call);
      } else {
        LateFailureReopens(wf, t, call);
      }
    } else {
      FittingReport(wf, t, call);
    }
  }

  lemma {:induction false} FittingReport(wf: Workflow, t: Tables, call: Call)
    requires Definition(wf) && Refines(wf, t) && IsReport(call) && !Contradicts(t, call)
    ensures Refines(wf, Handle(wf, t, call).t)
  {
    hide Refines, State, Handle, RetriesLeft;
    if call.id < |t.rows| && t.rows[call.id].status == RowPending {
      SettledBeforeLast(wf, t, call.id);
      LimitIsBacked(wf, Doing(wf, State(wf, t)));
      if call.ReportSuccess? { SuccessStep(wf, t); } else { FailureStep(wf, t, call.nonRetryable); }
    } else {
      assert Handle(wf, t, call).t == t by { SettledAsReported(wf, t, call); }
    }
  }

  lemma {:induction false} SettledAsReported(wf: Workflow, t: Tables, call: Call)
    requires IsReport(call) && (call.id < |t.rows| ==> t.rows[call.id].status == Reported(call))
    ensures Handle(wf, t, call).t == t
  {
  }

  /**
   * A timeout found before the result came in and reported after it: when the execution goes on after the success, the
   * late report takes it out of its saga, however the handler's follow-up goes.
   */
  lemma {:induction false} StaleTimeoutBreaks(wf: Workflow, t: Tables)
    requires Definition(wf) && Refines(wf, t) && Active(State(wf, t)) && Active(OnSuccess(wf, State(wf, t)))
    ensures var id := |t.rows| - 1;
            var t1 := Handle(wf, t, ReportSuccess(id)).t;
            Refines(wf, t1) && !Refines(wf, Handle(wf, t1, ReportFailure(id, false)).t)
  {
    hide Refines, State, Handle, OnSuccess, RetriesLeft;
    var id := |t.rows| - 1;
    RefinesFacts(wf, t);
    SuccessStep(wf, t);
    ReportAddsRow(wf, t, ReportSuccess(id));
    HandleKeepsOthers(wf, t, ReportSuccess(id));
    ReportExactly(wf, Handle(wf, t, ReportSuccess(id)).t, ReportFailure(id, false));
  }
}
