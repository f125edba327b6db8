/**
 * Retry policies, told by `maxAttempts` alone: which failures are followed by another attempt, and exactly which
 * attempts an execution comes to.
 */
module Limits {
  import opened Models
  import opened Keys
  import opened Backoff
  import opened Compensation
  import opened Tables
  import opened Adversary
  import opened Saga
  import opened Refinement
  import opened SagaTheorems
  import opened Boundaries
  import opened Progress
  import opened Registration

  /** The policy for `name` is that of activity `k`: the first of that name, or else the first that it compensates. */
  ghost predicate Governs(wf: Workflow, k: nat, name: string) {
    && k < |wf|
    && if IsForward(wf, name) then wf[k].name == name && forall j | 0 <= j < k :: wf[j].name != name
       else wf[k].compensation == name && forall j | 0 <= j < k :: wf[j].compensation != name
  }

  /** With distinct names this is the activity of that name. */
  lemma {:induction false} OwnPolicy(wf: Workflow, k: nat)
    requires DistinctNames(wf) && k < |wf|
    ensures Governs(wf, k, wf[k].name)
  {
  }

  lemma {:induction false} PolicyGoverns(wf: Workflow, name: string)
    ensures PolicyOf(wf, name).Some? ==> exists k: nat :: Governs(wf, k, name) && wf[k] == PolicyOf(wf, name).value
    ensures forall k: nat | Governs(wf, k, name) :: PolicyOf(wf, name) == Some(wf[k])
  {
    match PositionOf(wf, name)
    case Some(i) => assert Governs(wf, i, name);
    case None =>
      match CompensatorOf(wf, name)
      case Some(i) => assert Governs(wf, i, name);
      case None =>
  }

  /******* One failure *******/

  /**
   * The exact condition: a failure is followed by the next attempt if and only if it may be retried and the policy
   * gives a number above one that the attempt has not reached. Otherwise the row is dead-lettered at once, and the
   * execution turns back or fails.
   */
  lemma {:induction false} RetriedExactly(wf: Workflow, t: Tables, id: nat, nonRetryable: bool, k: nat)
    requires id < |t.rows| && t.rows[id].status != RowFailed && Governs(wf, k, t.rows[id].name)
    ensures var call, r := ReportFailure(id, nonRetryable), t.rows[id];
            var more := !nonRetryable && exists m :: wf[k].maxAttempts == Some(m) && m > 1 && r.attempt < m;
            && First(wf, t, call) == Do(if more then FailActivity(id) else DeadLetterActivity(id))
            && var t1 := Commit(t, First(wf, t, call).tx).t;
               var d := Second(wf, t.status, t1, call);
               if more then d == Do(ScheduleNextActivity(r.name, r.attempt + 1, Tier(r.attempt + 1)))
               else d.Do? && (d.tx == FailExecution(r.name) || d.tx.StartCompensating?)
  {
    hide NextCompensation, Tier;
    PolicyGoverns(wf, t.rows[id].name);
  }

  /** What the rows are then, if the next attempt is none yet: the row has failed, and the next attempt follows it. */
  lemma {:induction false} RetriedRows(wf: Workflow, t: Tables, id: nat, k: nat, m: int)
    requires id < |t.rows| && t.rows[id].status != RowFailed && Governs(wf, k, t.rows[id].name)
    requires wf[k].maxAttempts == Some(m) && m > 1 && t.rows[id].attempt < m && t.rows[id].attempt < 64
    requires !KeyTaken(t.rows, Key(t.exec, t.rows[id].name, t.rows[id].attempt + 1))
    ensures var r, t' := t.rows[id], Handle(wf, t, ReportFailure(id, false)).t;
            var next := r.attempt + 1;
            t'.rows == t.rows[id := r.(status := RowFailed)] +
                [ActivityRow(r.name, next, RowPending, Key(t.exec, r.name, next), None, false)]
  {
    hide Key, Message, NextCompensation, Tier, First, Second;
    RetriedExactly(wf, t, id, false, k);
    var next := t.rows[id].attempt + 1;
    TierExact(next);
    FailingKeepsKeys(t, id, Key(t.exec, t.rows[id].name, next));
  }

  lemma {:induction false} FailingKeepsKeys(t: Tables, id: nat, key: string)
    requires id < |t.rows|
    ensures KeyTaken(Commit(t, FailActivity(id)).t.rows, key) ==> KeyTaken(t.rows, key)
  {
  }

  /** A row that is neither an activity's nor a compensation's cannot be reported as failed. */
  lemma {:induction false} UnknownIsRefused(wf: Workflow, t: Tables, id: nat, nonRetryable: bool)
    requires id < |t.rows| && t.rows[id].status != RowFailed
    ensures (forall k: nat :: !Governs(wf, k, t.rows[id].name)) ==>
              Handle(wf, t, ReportFailure(id, nonRetryable)) == Reply(t, false)
  {
    hide NextCompensation, Second, Commit;
    PolicyGoverns(wf, t.rows[id].name);
  }

  /******* Whole runs *******/

  /** An attempt that the policy for `name` allows. */
  ghost predicate Allows(wf: Workflow, name: string, attempt: nat) {
    attempt > 1 ==>
      attempt <= 64 && exists k: nat, m :: Governs(wf, k, name) && wf[k].maxAttempts == Some(m) && attempt <= m
  }

  ghost predicate AllAllowed(wf: Workflow, rows: seq<ActivityRow>) {
    forall i | 0 <= i < |rows| :: Allows(wf, rows[i].name, rows[i].attempt)
  }

  /** A transaction that no operator asked for. */
  predicate IsUnasked(tx: Tx) {
    !tx.RetryActivity? && !(tx.StartCompensating? && tx.manual)
  }

  lemma {:induction false} LimitAllows(wf: Workflow, t: Tables, tx: Tx)
    requires Lawful(wf, t, tx) && tx.ScheduleNextActivity? && AllAllowed(wf, t.rows) && FitsInt32(tx.tier)
    ensures Allows(wf, tx.next, tx.attempt)
  {
    hide Tier, PolicyOf, FitsInt32;
    if tx.attempt > 1 {
      TierExact(tx.attempt);
      PolicyGoverns(wf, tx.next);
      var i :| 0 <= i < |t.rows| && t.rows[i].name == tx.next && t.rows[i].attempt == tx.attempt - 1;
      assert Allows(wf, t.rows[i].name, t.rows[i].attempt);
    }
  }

  lemma {:induction false} CommitAllowed(wf: Workflow, t: Tables, tx: Tx)
    requires Lawful(wf, t, tx) && IsUnasked(tx) && AllAllowed(wf, t.rows)
    ensures AllAllowed(wf, Commit(t, tx).t.rows)
  {
    hide HasRow, Allows, FitsInt32, KeyTaken, Tier, PolicyOf;
    var rows' := Commit(t, tx).t.rows;
    CommitKeepsRows(t, tx);
    if |rows'| > |t.rows| {
      LaunchedAllowed(wf, t, tx);
    }
    forall i | 0 <= i < |rows'| ensures Allows(wf, rows'[i].name, rows'[i].attempt) {
      if i < |t.rows| { assert Allows(wf, t.rows[i].name, t.rows[i].attempt); }
    }
  }

  lemma {:induction false} LaunchedAllowed(wf: Workflow, t: Tables, tx: Tx)
    requires Lawful(wf, t, tx) && IsUnasked(tx) && AllAllowed(wf, t.rows) && |Commit(t, tx).t.rows| > |t.rows|
    ensures |Commit(t, tx).t.rows| == |t.rows| + 1
    ensures var r := Commit(t, tx).t.rows[|t.rows|]; Allows(wf, r.name, r.attempt)
  {
    hide KeyTaken, AllAllowed, FitsInt32, Tier, PolicyOf;
    if tx.ScheduleNextActivity? { LimitAllows(wf, t, tx); }
  }

  ghost predicate NoRetries(moves: seq<Move>) {
    forall m | m in moves :: m.PlanFirst? ==> IsReport(m.call)
  }

  lemma {:induction false} UnaskedPlans(wf: Workflow, before: ExecutionStatus, t: Tables, call: Call)
    ensures IsReport(call) && First(wf, t, call).Do? ==> IsUnasked(First(wf, t, call).tx)
    ensures Second(wf, before, t, call).Do? ==> IsUnasked(Second(wf, before, t, call).tx)
  {
    hide NextCompensation, PolicyOf, Tier;
  }

  /** Whatever is reported, however late and on whatever stale reads: no attempt beyond what its policy allows. */
  lemma {:induction false} NoneBeyond(wf: Workflow, exec: string, moves: seq<Move>)
    requires RunAllowed(wf, Begin(exec, wf), moves) && NoRetries(moves)
    ensures var w := RunMoves(wf, Begin(exec, wf), moves);
            AllAllowed(wf, w.t.rows) && forall tx | tx in w.planned :: IsUnasked(tx)
  {
    hide AllAllowed, Lawful, First, Second, Commit, Sound, IsUnasked;
    if moves == [] {
      FirstAllowed(wf, exec);
    } else {
      var init, m := moves[..|moves| - 1], moves[|moves| - 1];
      assert forall x | x in init :: x in moves;
      NoneBeyond(wf, exec, init);
      RunKeepsWorldSound(wf, exec, init);
      var w := RunMoves(wf, Begin(exec, wf), init);
      match m
      case PlanFirst(call) => UnaskedPlans(wf, Running, w.t, call);
      case PlanSecond(before, call) => UnaskedPlans(wf, before, w.t, call);
      case PlanCancel(reason) => assert IsUnasked(CancelExecution(reason)) by { CancelIsUnasked(reason); }
      case Fire(tx) => if tx in w.planned && InRange(w.t, tx) { CommitAllowed(wf, w.t, tx); }
    }
  }

  lemma {:induction false} CancelIsUnasked(reason: string)
    ensures IsUnasked(CancelExecution(reason))
  {
  }

  lemma {:induction false} FirstAllowed(wf: Workflow, exec: string)
    ensures AllAllowed(wf, Create(exec, wf).rows)
  {
  }

  /** A report, right or wrong, in time or late, adds no attempt that is not allowed. */
  lemma {:induction false} ReportAllowed(wf: Workflow, t: Tables, call: Call)
    requires IsReport(call) && AllAllowed(wf, t.rows)
    ensures AllAllowed(wf, Handle(wf, t, call).t.rows)
  {
    hide AllAllowed, Lawful, First, Second, Commit, IsUnasked;
    FirstIsLawful(wf, t, call);
    UnaskedPlans(wf, Running, t, call);
    var d := First(wf, t, call);
    if d.Do? {
      CommitAllowed(wf, t, d.tx);
      var t1 := Commit(t, d.tx).t;
      SecondIsLawful(wf, t.status, t1, call);
      UnaskedPlans(wf, t.status, t1, call);
      var d' := Second(wf, t.status, t1, call);
      if d'.Do? { CommitAllowed(wf, t1, d'.tx); }
    }
  }

  lemma {:induction false} DeliveriesAllowed(wf: Workflow, exec: string, o: Outcomes, actions: seq<Action>)
    requires OnlyDeliveries(actions)
    ensures AllAllowed(wf, Run(wf, Create(exec, wf), o, actions).rows)
  {
    hide AllAllowed, Handle;
    if actions == [] {
      FirstAllowed(wf, exec);
    } else {
      var init, a := actions[..|actions| - 1], actions[|actions| - 1];
      assert forall x | x in init :: x in actions;
      DeliveriesAllowed(wf, exec, o, init);
      ReportAllowed(wf, Run(wf, Create(exec, wf), o, init), CallOf(o, a));
    }
  }

  /******* Every attempt that is allowed *******/

  /** The path to its name `n`, whose attempts all fail. */
  function OutcomesTo(wf: Workflow, n: nat): Outcomes
    requires wf != []
  {
    (id: nat) => if id < n then PathOutcomes(wf)(id) else Fails(false)
  }

  ghost predicate AtPathAttempt(wf: Workflow, t: Tables, o: Outcomes, n: nat, a: Attempt)
    requires wf != [] && n < |Path(wf)|
  {
    && Refines(wf, t) && Agrees(t, o) && |t.rows| == n + a
    && State(wf, t) == match PathState(wf, n)
                       case Forward(k, _) => Forward(k, a)
                       case Undo(k, j, _) => Undo(k, j, a)
                       case s => s
  }

  lemma {:induction false} AtDoing(wf: Workflow, t: Tables, o: Outcomes, n: nat, a: Attempt)
    requires wf != [] && n < |Path(wf)| && AtPathAttempt(wf, t, o, n, a)
    ensures Active(State(wf, t)) && Doing(wf, State(wf, t)) == Path(wf)[n] && State(wf, t).a == a
    ensures HasRow(t.rows, Path(wf)[n], a)
  {
    hide UndoPlan, Refines, State, Sound;
    RefinesFacts(wf, t);
    assert t.rows[|t.rows| - 1] == Last(t.rows);
    if n < |wf| { ForwardNameAt(wf, |wf|, n); }
  }

  lemma {:induction false} NextName(wf: Workflow, t: Tables, o: Outcomes, n: nat)
    requires Sensible(wf) && n + 1 < |Path(wf)| && AtPathAttempt(wf, t, o, n, 1) && o(n) == PathOutcomes(wf)(n)
    ensures AtPathAttempt(wf, Act(wf, t, o, Deliver(n)), o, n + 1, 1)
  {
    hide Refines, State, Agrees, Handle, UndoPlan, Sound, Path;
    AtDoing(wf, t, o, n, 1);
    PathIdeal(wf, n);
    if n == |wf| - 1 { FailureStep(wf, t, true); } else { SuccessStep(wf, t); }
    ReportAddsRow(wf, t, CallOf(o, Deliver(n)));
    DeliverySettles(wf, t, o, Deliver(n));
  }

  lemma {:induction false} NextTry(wf: Workflow, t: Tables, o: Outcomes, n: nat, a: Attempt, k: nat, m: int)
    requires Sensible(wf) && n < |Path(wf)| && AtPathAttempt(wf, t, o, n, a) && a < 64 && o(n + a - 1) == Fails(false)
    requires Governs(wf, k, Path(wf)[n]) && wf[k].maxAttempts == Some(m) && a < m
    ensures AtPathAttempt(wf, Act(wf, t, o, Deliver(n + a - 1)), o, n, a + 1)
  {
    hide Refines, State, Agrees, Handle, UndoPlan, Sound, Path, PolicyOf, Governs;
    AtDoing(wf, t, o, n, a);
    PolicyGoverns(wf, Path(wf)[n]);
    FailureStep(wf, t, false);
    ReportAddsRow(wf, t, CallOf(o, Deliver(n + a - 1)));
    DeliverySettles(wf, t, o, Deliver(n + a - 1));
  }

  lemma {:induction false} PathStart(wf: Workflow, exec: string, o: Outcomes)
    requires wf != []
    ensures 0 < |Path(wf)| && AtPathAttempt(wf, Create(exec, wf), o, 0, 1)
  {
    hide Refines, State, UndoPlan;
    CreateRefines(exec, wf);
  }

  lemma {:induction false} ComesTo(wf: Workflow, exec: string, to: nat, n: nat, a: Attempt, k: nat)
    requires Sensible(wf) && n <= to && n < |Path(wf)| && (a > 1 ==> n == to) && a <= 64
    requires a > 1 ==> Governs(wf, k, Path(wf)[n]) && wf[k].maxAttempts.Some? && a <= wf[k].maxAttempts.value
    ensures var o := OutcomesTo(wf, to); AtPathAttempt(wf, Run(wf, Create(exec, wf), o, Upto(n + a - 1)), o, n, a)
    decreases n + a
  {
    hide Run, Act, AtPathAttempt, Path, PathOutcomes, Create;
    var o := OutcomesTo(wf, to);
    if n + a > 1 {
      RunUpto(wf, Create(exec, wf), o, n + a - 1);
      var t := Run(wf, Create(exec, wf), o, Upto(n + a - 2));
      if a > 1 {
        ComesTo(wf, exec, to, n, a - 1, k);
        NextTry(wf, t, o, n, a - 1, k, wf[k].maxAttempts.value);
      } else {
        ComesTo(wf, exec, to, n - 1, 1, k);
        NextName(wf, t, o, n - 1);
      }
    } else {
      PathStart(wf, exec, o);
      EmptyRun(wf, Create(exec, wf), o);
    }
  }

  lemma {:induction false} EmptyRun(wf: Workflow, t: Tables, o: Outcomes)
    ensures Run(wf, t, o, Upto(0)) == t
  {
  }

  ghost predicate Occurs(wf: Workflow, exec: string, name: string, a: nat) {
    exists o: Outcomes, actions ::
      OnlyDeliveries(actions) && HasRow(Run(wf, Create(exec, wf), o, actions).rows, name, a)
  }

  /**
   * The exact condition over all runs of deliveries, for every activity, and every compensation that can come up:
   * attempt `a` occurs in some run if and only if it is the first, or at most 64 and at most the number that the policy
   * gives.
   */
  lemma {:induction false} OccursExactly(wf: Workflow, exec: string, name: string, k: nat, a: nat)
    requires Sensible(wf) && name in Path(wf) && Governs(wf, k, name)
    ensures Occurs(wf, exec, name, a) <==>
              || a == 1
              || (1 < a <= 64 && exists m :: wf[k].maxAttempts == Some(m) && a <= m)
  {
    hide Path, AllAllowed, Run, Create, OnlyDeliveries, AtPathAttempt;
    if Occurs(wf, exec, name, a) {
      var o: Outcomes, actions :|
        OnlyDeliveries(actions) && HasRow(Run(wf, Create(exec, wf), o, actions).rows, name, a);
      DeliveriesAllowed(wf, exec, o, actions);
      AllowedByOne(wf, Run(wf, Create(exec, wf), o, actions).rows, name, k, a);
    }
    if a == 1 || (1 < a <= 64 && wf[k].maxAttempts.Some? && a <= wf[k].maxAttempts.value) {
      var n :| 0 <= n < |Path(wf)| && Path(wf)[n] == name;
      var o := OutcomesTo(wf, n);
      ComesTo(wf, exec, n, n, a, k);
      UptoDelivers(n + a - 1);
      AtDoing(wf, Run(wf, Create(exec, wf), o, Upto(n + a - 1)), o, n, a);
    }
  }

  lemma {:induction false} AllowedByOne(wf: Workflow, rows: seq<ActivityRow>, name: string, k: nat, a: nat)
    requires AllAllowed(wf, rows) && HasRow(rows, name, a) && Governs(wf, k, name)
    ensures a >= 1 && (a > 1 ==> a <= 64 && exists m :: wf[k].maxAttempts == Some(m) && a <= m)
  {
    hide PolicyOf;
    var i :| 0 <= i < |rows| && rows[i].name == name && rows[i].attempt == a;
    assert Allows(wf, rows[i].name, rows[i].attempt);
    PolicyGoverns(wf, name);
  }
}
