/** Retries by hand: when they keep the execution in its saga, and what they do otherwise. */
module Retries {
  import opened Models
  import opened Keys
  import opened Compensation
  import opened Tables
  import opened Adversary
  import opened Saga
  import opened Refinement
  import opened SagaTheorems
  import opened Boundaries

  /******* Retrying a dead-lettered row *******/

  /** A retry that changes anything launches the successor of its row, and makes the status that of its kind. */
  lemma {:induction false} RetryAddsSuccessor(wf: Workflow, t: Tables, id: nat)
    ensures var t' := Handle(wf, t, RetryDeadLettered(id)).t;
            t' != t ==>
              && id < |t.rows| && t.rows[id].deadLettered && t'.rows != [] && Init(t'.rows) == t.rows
              && t.status != Compensated && t.status != Cancelled && t.status != Completed
              && Last(t'.rows).status == RowPending && Last(t'.rows).name == t.rows[id].name
              && t'.status == if IsForward(wf, t.rows[id].name) then Running else Compensating
  {
    hide KeyTaken, Message, PositionOf;
  }

  /** A pending row with another behind it is no run of the machine. */
  lemma {:induction false} InnerPendingRefinesNot(wf: Workflow, t: Tables)
    requires t.rows != [] && Init(t.rows) != [] && Last(Init(t.rows)).status == RowPending
    requires Last(t.rows).status == RowPending
    ensures !Refines(wf, t)
  {
    hide Sound, UndoPlan, CompletedInOrder, DeadRowsFailed;
  }

  /** Where compensations were started and an end was reached, what the machine resumes is a compensation. */
  lemma {:induction false} StuckAmongCompensations(wf: Workflow, t: Tables, r: ActivityRow)
    requires Sensible(wf) && Refines(wf, t) && t.status == Failed && r in t.rows && !IsForward(wf, r.name)
    ensures State(wf, t).StuckUndo? && Replay(wf, t.rows) == Some(State(wf, t))
  {
    hide Sound, UndoPlan, CompletedInOrder, DeadRowsFailed;
    var s := State(wf, t);
    LedgerComps(wf, t.rows);
    var i :| 0 <= i < |t.rows| && t.rows[i] == r;
    LedgerIsSettled(wf, t.rows, i);
    assert r.name in CompletedComps(wf, t.rows);
  }

  lemma {:induction false} ForwardAfterStuckUndo(wf: Workflow, t: Tables, t': Tables)
    requires Sensible(wf) && Refines(wf, t) && State(wf, t).StuckUndo? && Replay(wf, t.rows) == Some(State(wf, t))
    requires t'.rows != [] && Init(t'.rows) == t.rows && Last(t'.rows).status == RowPending &&
             IsForward(wf, Last(t'.rows).name)
    ensures !Refines(wf, t')
  {
    hide Sound, UndoPlan, CompletedInOrder, DeadRowsFailed;
    DoingKind(wf, Resume(State(wf, t)));
  }

  /**
   * The exact condition: the retry of a dead-lettered row keeps the execution in its saga if and only if it is
   * refused and changes nothing, or the execution has failed and the row is a compensation's, or no compensation
   * was ever started.
   */
  lemma {:induction false} RetryExactly(wf: Workflow, t: Tables, o: Outcomes, id: nat)
    requires Sensible(wf) && Refines(wf, t)
    ensures Refines(wf, Act(wf, t, o, RetryDead(id))) <==>
              Act(wf, t, o, RetryDead(id)) == t || Admissible(wf, t, RetryDead(id))
  {
    hide Refines, State, Handle, Sound, UndoPlan, IsForward;
    var t' := Act(wf, t, o, RetryDead(id));
    RetryAddsSuccessor(wf, t, id);
    RefinesFacts(wf, t);
    if t' == t {
    } else if Admissible(wf, t, RetryDead(id)) {
      RetryRefines(wf, t, o, RetryDead(id));
    } else if t.status == Failed {
      var r :| r in t.rows && !IsForward(wf, r.name);
      StuckAmongCompensations(wf, t, r);
      ForwardAfterStuckUndo(wf, t, t');
    } else {
      InnerPendingRefinesNot(wf, t');
    }
  }

  /**
   * Retrying the dead-lettered activity while compensations are under way is accepted: the execution is RUNNING
   * again with two pending rows, the compensation's and the activity's.
   */
  lemma {:induction false} RetryWhileCompensating(wf: Workflow, t: Tables, o: Outcomes, id: nat)
    requires Sensible(wf) && Refines(wf, t) && t.status == Compensating
    requires id < |t.rows| && t.rows[id].deadLettered && IsForward(wf, t.rows[id].name)
    requires !HasRow(t.rows, t.rows[id].name, t.rows[id].attempt + 1)
    ensures var t' := Act(wf, t, o, RetryDead(id));
            t'.status == Running && IsPending(t', |t.rows| - 1) && IsPending(t', |t.rows|) && !Refines(wf, t')
  {
    hide Refines, State, Sound, UndoPlan, Message, PositionOf;
    RefinesFacts(wf, t);
    SoundKeysTell(t, t.rows[id].name, t.rows[id].attempt + 1);
    RetryExactly(wf, t, o, id);
  }

  /** Such a run exists for every definition with something to undo: `k` successes, a failure for good, the retry. */
  lemma {:induction false} CompensatingRetryRun(wf: Workflow, exec: string, k: nat)
    requires Sensible(wf) && k < |wf| && UndoPlan(wf, k) != []
    ensures var o := FirstSucceed(k, true);
            var t := Run(wf, Create(exec, wf), o, Upto(k + 1));
            var t' := Act(wf, t, o, RetryDead(k));
            && Refines(wf, t) && t.status == Compensating
            && t'.status == Running && IsPending(t', k + 1) && IsPending(t', k + 2) && !Refines(wf, t')
  {
    hide Refines, State, Sound, UndoPlan, Run, Handle, Act, AtAttempt, Create;
    var o := FirstSucceed(k, true);
    PositiveLimit(wf, k);
    AttemptIsReached(wf, exec, k, true, k, 1);
    RunUpto(wf, Create(exec, wf), o, k + 1);
    var t0 := Run(wf, Create(exec, wf), o, Upto(k));
    TurnsBack(wf, t0, o, k);
    var t := Run(wf, Create(exec, wf), o, Upto(k + 1));
    RetryWhileCompensating(wf, t, o, k);
  }

  lemma {:induction false} DeadLettersRow(wf: Workflow, t: Tables, id: nat)
    requires id < |t.rows| && t.rows[id].status == RowPending && PolicyOf(wf, t.rows[id].name).Some?
    ensures var rows := Handle(wf, t, ReportFailure(id, true)).t.rows;
            && |t.rows| <= |rows| && rows[id].deadLettered
            && forall i | 0 <= i < |t.rows| :: rows[i].name == t.rows[i].name && rows[i].attempt == t.rows[i].attempt
  {
    hide NextCompensation, PolicyOf, Launch, Message;
    var tx := DeadLetterActivity(id);
    var t1 := Commit(t, tx).t;
    var d := Second(wf, t.status, t1, ReportFailure(id, true));
    if d.Do? {
      CommitKeepsOthers(t1, d.tx);
    }
  }

  /** No activity has a row before the machine comes to it. */
  lemma {:induction false} NoRowAhead(wf: Workflow, t: Tables)
    requires Sensible(wf) && Refines(wf, t) && State(wf, t).Forward? && State(wf, t).a == 1
    ensures forall i | 0 <= i < |t.rows| - 1 :: t.rows[i].name != wf[State(wf, t).k].name
  {
    hide Sound, CompletedInOrder, UndoPlan, StatusOf;
    var s, init := State(wf, t), Init(t.rows);
    LedgerEarlier(wf, init);
    forall i | 0 <= i < |t.rows| - 1 ensures t.rows[i].name != wf[s.k].name {
      assert init[i] == t.rows[i] && Earlier(wf, s, init[i]);
    }
  }

  /** The awaited activity fails for good with something to undo. */
  lemma {:induction false} TurnsBack(wf: Workflow, t: Tables, o: Outcomes, k: nat)
    requires Sensible(wf) && AtAttempt(wf, t, o, k, 1) && k < |wf| && UndoPlan(wf, k) != [] && o(k) == Fails(true)
    ensures var t' := Act(wf, t, o, Deliver(k));
            && Refines(wf, t') && t'.status == Compensating && |t'.rows| == k + 2
            && t'.rows[k].deadLettered && t'.rows[k].name == wf[k].name && IsForward(wf, wf[k].name)
            && !HasRow(t'.rows, t'.rows[k].name, t'.rows[k].attempt + 1)
  {
    hide Sound, UndoPlan, Handle, Refines, State;
    var call := ReportFailure(k, true);
    RefinesFacts(wf, t);
    PositionOfName(wf, k);
    DoingKind(wf, State(wf, t));
    FailureStep(wf, t, true);
    ReportAddsRow(wf, t, call);
    DeadLettersRow(wf, t, k);
    NoRowAhead(wf, t);
    var t' := Handle(wf, t, call).t;
    RefinesFacts(wf, t');
    DoingKind(wf, State(wf, t'));
    forall i | 0 <= i < |t'.rows| ensures t'.rows[i].name == wf[k].name ==> t'.rows[i].attempt == 1 {
      if i < k { assert t'.rows[i].name == t.rows[i].name; }
    }
  }

  /******* Retrying a forward row while compensation is stuck *******/

  /**
   * Retrying the dead-lettered activity of an execution whose compensation `j` is stuck, and failing again,
   * resumes compensation behind `j`: the stuck compensation is skipped for good, and an execution with
   * nothing behind it fails. This is why such a retry is not admitted above.
   */
  lemma {:induction false} ForwardRetrySkipsCompensation(wf: Workflow, t: Tables, id: nat)
    requires Sensible(wf) && Refines(wf, t) && State(wf, t).StuckUndo?
    requires id < |t.rows| && t.rows[id].deadLettered && IsForward(wf, t.rows[id].name)
    requires !HasRow(t.rows, t.rows[id].name, t.rows[id].attempt + 1)
    ensures var s := State(wf, t);
            var t1 := Handle(wf, t, RetryDeadLettered(id));
            var t2 := Handle(wf, t1.t, ReportFailure(|t.rows|, true));
            && t1.ok && t2.ok && t1.t.status == Running
            && if s.j + 1 < |Plan(wf, s)| then t2.t.status == Compensating && t2.t.current == Plan(wf, s)[s.j + 1]
               else t2.t.status == Failed
    ensures Plan(wf, State(wf, t))[State(wf, t).j] !in UndoneComps(wf, t.rows)
  {
    hide Refines, State, Handle, Sound, UndoneComps, UndoPlan, NoRepeats;
    var s := State(wf, t);
    RefinesFacts(wf, t);
    OrderAt(wf, t);
    UndoPlanHasNoRepeats(wf, s.k);
    NotAmongFirst(Plan(wf, s), s.j);
    RetryLaunches(wf, t, id);
    HandleKeepsSound(wf, t, RetryDeadLettered(id));
    FailedAgain(wf, t, Handle(wf, t, RetryDeadLettered(id)).t);
  }

  lemma {:induction false} NotAmongFirst(plan: seq<string>, j: nat)
    requires NoRepeats(plan) && j < |plan|
    ensures plan[j] !in plan[..j]
  {
  }

  lemma {:induction false} RetryLaunches(wf: Workflow, t: Tables, id: nat)
    requires Sound(t) && t.status == Failed && id < |t.rows| && t.rows[id].deadLettered &&
             IsForward(wf, t.rows[id].name)
    requires !HasRow(t.rows, t.rows[id].name, t.rows[id].attempt + 1)
    ensures var r := Handle(wf, t, RetryDeadLettered(id));
            && r.ok && r.t.status == Running && r.t.rows != [] && r.t.rows == t.rows + [Last(r.t.rows)]
            && Last(r.t.rows).status == RowPending && Last(r.t.rows).name == t.rows[id].name
  {
    KeysTell(t, t.rows[id].name, t.rows[id].attempt + 1);
  }

  lemma {:induction false} FailedAgain(wf: Workflow, t: Tables, t1: Tables)
    requires Sensible(wf) && Refines(wf, t) && State(wf, t).StuckUndo?
    requires Sound(t1) && t1.status == Running && t1.rows != [] && t1.rows == t.rows + [Last(t1.rows)]
    requires Last(t1.rows).status == RowPending && IsForward(wf, Last(t1.rows).name)
    ensures var s := State(wf, t);
            var t2 := Handle(wf, t1, ReportFailure(|t.rows|, true));
            && t2.ok
            && if s.j + 1 < |Plan(wf, s)| then t2.t.status == Compensating && t2.t.current == Plan(wf, s)[s.j + 1]
               else t2.t.status == Failed
  {
    hide Refines, State, Handle, UndoPlan, NoRepeats, Sound, NextCompensation, Launch, StartedComps, UndoneComps;
    var s, id := State(wf, t), |t.rows|;
    RefinesFacts(wf, t);
    var tx := DeadLetterActivity(id);
    var u := Commit(t1, tx).t;
    SettleKeepsSound(t1, tx);
    ScanSkipsStuck(wf, t, u);
    FailureTurnsBack(wf, t1, id);
    if s.j + 1 < |Plan(wf, s)| {
      var c := Plan(wf, s)[s.j + 1];
      UnstartedIsFresh(wf, t, c);
      DoingKind(wf, Undo(s.k, s.j + 1, 1));
      assert forall i | 0 <= i < |u.rows| :: u.rows[i].name != c;
      CompensationStarts(u, c);
    }
  }

  lemma {:induction false} CompensationStarts(t: Tables, c: string)
    requires Sound(t) && forall i | 0 <= i < |t.rows| :: t.rows[i].name != c
    ensures var r := Commit(t, StartCompensating(c, 1, false)); r.ok && r.t.status == Compensating && r.t.current == c
  {
    KeysTell(t, c, 1);
  }

  lemma {:induction false} FailureTurnsBack(wf: Workflow, t: Tables, id: nat)
    requires id < |t.rows| && t.rows[id].status == RowPending && t.status == Running && IsForward(wf, t.rows[id].name)
    ensures var u := Commit(t, DeadLetterActivity(id)).t;
            var next := NextCompensation(wf, u.rows);
            Handle(wf, t, ReportFailure(id, true)) ==
            Commit(u, if next.Some? then StartCompensating(next.value, 1, false) else FailExecution(t.rows[id].name))
  {
    hide NextCompensation, Message, Launch, RetriesLeft;
    NeverRetried(wf, t.rows[id]);
    NeverRetried(wf, Commit(t, DeadLetterActivity(id)).t.rows[id]);
  }

  lemma {:induction false} NeverRetried(wf: Workflow, r: ActivityRow)
    ensures !RetriesLeft(wf, r, true)
  {
  }

  /** What is stuck has no row pending: its rows are the ledger. */
  lemma {:induction false} StuckIsLedger(wf: Workflow, t: Tables)
    requires Refines(wf, t) && State(wf, t).StuckUndo?
    ensures Replay(wf, t.rows) == Some(State(wf, t)) && Valid(wf, State(wf, t)) && CompletedInOrder(t.rows)
    ensures Sound(t)
  {
    hide Sound, UndoPlan, CompletedInOrder, DeadRowsFailed;
  }

  lemma {:induction false} SoundIsTimed(t: Tables)
    requires Sound(t)
    ensures Timed(t.rows)
  {
  }

  lemma {:induction false} ScanSkipsStuck(wf: Workflow, t: Tables, u: Tables)
    requires Sensible(wf) && Refines(wf, t) && State(wf, t).StuckUndo? && Sound(u)
    requires |u.rows| == |t.rows| + 1 && u.rows[..|t.rows|] == t.rows
    requires Last(u.rows).status == RowFailed && IsForward(wf, Last(u.rows).name)
    ensures var s := State(wf, t);
            NextCompensation(wf, u.rows) == if s.j + 1 < |Plan(wf, s)| then Some(Plan(wf, s)[s.j + 1]) else None
  {
    hide NoRepeats, UndoPlan, LastAwaiting, Listing, FirstNotIn, Refines, State, Sound, Replay, Timed;
    var s := State(wf, t);
    StuckIsLedger(wf, t);
    SoundIsTimed(u);
    FailedRowChangesNothing(wf, t.rows, u.rows);
    TableOrderAgrees(wf, u.rows);
    LedgerForward(wf, t.rows);
    LedgerComps(wf, t.rows);
    ScanFollowsPlan(wf, u.rows, s.k, CompletedComps(wf, u.rows));
    UndoPlanHasNoRepeats(wf, s.k);
    FirstNotInPrefix(Plan(wf, s), s.j + 1);
  }

  lemma {:induction false} FailedRowChangesNothing(wf: Workflow, rows: seq<ActivityRow>, rows': seq<ActivityRow>)
    requires |rows'| == |rows| + 1 && rows'[..|rows|] == rows && CompletedInOrder(rows)
    requires Last(rows').status == RowFailed && IsForward(wf, Last(rows').name)
    ensures CompletedNames(wf, rows') == CompletedNames(wf, rows)
    ensures CompletedComps(wf, rows') == CompletedComps(wf, rows)
    ensures CompletedInOrder(rows')
  {
    assert rows' == rows + [Last(rows')];
    CompsAppend(wf, rows, Last(rows'));
    assert forall i | 0 <= i < |rows| :: rows'[i] == rows[i];
  }

  lemma {:induction false} UnstartedIsFresh(wf: Workflow, t: Tables, c: string)
    requires Sensible(wf) && Refines(wf, t) && State(wf, t).StuckUndo?
    requires State(wf, t).j + 1 < |Plan(wf, State(wf, t))| && c == Plan(wf, State(wf, t))[State(wf, t).j + 1]
    ensures forall i | 0 <= i < |t.rows| :: t.rows[i].name != c
  {
    hide UndoPlan, Refines, State, Sound, Replay;
    var s := State(wf, t);
    StuckIsLedger(wf, t);
    LedgerEarlier(wf, t.rows);
    UndoPlanHasNoRepeats(wf, s.k);
    DoingKind(wf, Undo(s.k, s.j + 1, 1));
    forall i | 0 <= i < |t.rows| ensures t.rows[i].name != c {
      assert Earlier(wf, Resume(s), t.rows[i]);
    }
  }

  /******* Retrying a compensation that has failed more than once *******/

  /**
   * A compensation retried by hand that fails again leaves two dead-lettered rows, and the query does not order
   * them. The next retry works if and only if the row listed first is the latest one; otherwise the attempt it
   * asks for exists already, and it is refused.
   */
  lemma {:induction false} RetryNeedsLatestFirst(wf: Workflow, t: Tables, acts: seq<ActivityRow>)
    requires Sensible(wf) && Refines(wf, t) && t.status == Failed && IsListing(t.rows, acts)
    requires FirstFailedCompensation(wf, acts).Some?
    ensures Handle(wf, t, RetryCompensation(acts)).ok <==> FirstFailedCompensation(wf, acts).value == Last(t.rows)
  {
    hide Refines, State, Sound, Abs, IsListing, FirstFailedCompensation, UndoPlan, Launch;
    var r := FirstFailedCompensation(wf, acts).value;
    RefinesFacts(wf, t);
    FirstFailedIsListed(wf, t, acts);
    RetryTarget(wf, t, r);
    LastIsStuck(wf, t);
    RetryLaunchesNext(wf, t, acts);
    if r.name == Last(t.rows).name && r.attempt == Last(t.rows).attempt { SoundRowsDiffer(t, r); }
  }

  /** A row that a compensation retry may pick. */
  predicate IsStuckCompensation(wf: Workflow, r: ActivityRow) {
    r.deadLettered && forall i | 0 <= i < |wf| :: wf[i].name != r.name
  }

  /**
   * For every state and every listing: the retry of the compensation works if and only if the execution has FAILED,
   * the listing has a dead-lettered row that is no activity's, and the next attempt of the first of these does not
   * exist. It launches that attempt, under COMPENSATING; otherwise it returns an error and changes nothing.
   */
  lemma {:induction false} CompensationRetryExactly(wf: Workflow, t: Tables, acts: seq<ActivityRow>, i: nat)
    requires i <= |acts| && (forall k | 0 <= k < i :: !IsStuckCompensation(wf, acts[k]))
    requires i < |acts| ==> IsStuckCompensation(wf, acts[i])
    ensures var r := Handle(wf, t, RetryCompensation(acts));
            && (r.ok <==>
                  && t.status == Failed && i < |acts|
                  && !KeyTaken(t.rows, Key(t.exec, acts[i].name, acts[i].attempt + 1)))
            && (!r.ok ==> r.t == t)
            && (r.ok ==>
                  var name, next := acts[i].name, acts[i].attempt + 1;
                  && r.t.status == Compensating && r.t.current == name
                  && r.t.rows == t.rows + [ActivityRow(name, next, RowPending, Key(t.exec, name, next), None, false)])
  {
    hide KeyTaken, Message, Key, FirstFailedCompensation;
    forall k | 0 <= k < |acts| ensures IsStuckCompensation(wf, acts[k]) <==> IsDeadCompensation(wf, acts[k]) {
      StuckIsDead(wf, acts[k]);
    }
    if i < |acts| {
      FailedCompensationIsFirst(wf, acts, i);
    } else if FirstFailedCompensation(wf, acts).Some? {
      SomeIsDead(wf, acts);
    }
  }

  lemma {:induction false} StuckIsDead(wf: Workflow, r: ActivityRow)
    ensures IsStuckCompensation(wf, r) <==> IsDeadCompensation(wf, r)
  {
  }

  lemma {:induction false} SomeIsDead(wf: Workflow, acts: seq<ActivityRow>)
    requires FirstFailedCompensation(wf, acts).Some?
    ensures exists k :: 0 <= k < |acts| && IsDeadCompensation(wf, acts[k])
  {
  }

  lemma {:induction false} RetryLaunchesNext(wf: Workflow, t: Tables, acts: seq<ActivityRow>)
    requires Sound(t) && t.status == Failed && FirstFailedCompensation(wf, acts).Some?
    ensures var r := FirstFailedCompensation(wf, acts).value;
            Handle(wf, t, RetryCompensation(acts)).ok <==> !HasRow(t.rows, r.name, r.attempt + 1)
  {
    hide FirstFailedCompensation;
    var r := FirstFailedCompensation(wf, acts).value;
    KeysTell(t, r.name, r.attempt + 1);
  }

  /** In a failed execution the last row is the attempt that the machine would resume after, and has no successor. */
  lemma {:induction false} LastIsStuck(wf: Workflow, t: Tables)
    requires Sensible(wf) && Refines(wf, t) && t.status == Failed
    ensures var s := Resume(State(wf, t));
            && Valid(wf, s) && Active(s) && Doing(wf, s) == Last(t.rows).name && s.a == Last(t.rows).attempt + 1
            && !HasRow(t.rows, Last(t.rows).name, Last(t.rows).attempt + 1)
  {
    hide Sound, UndoPlan, CompletedInOrder, DeadRowsFailed;
    var before := LastStep(wf, t.rows);
    AttemptIsFresh(wf, t.rows);
  }

  lemma {:induction false} SoundRowsDiffer(t: Tables, r: ActivityRow)
    requires Sound(t) && r in t.rows && t.rows != [] && r.name == Last(t.rows).name && r.attempt == Last(t.rows).attempt
    ensures r == Last(t.rows)
  {
  }
}
