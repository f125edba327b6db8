/** Where the guarantees end: exact conditions, and runs of the engine just outside them. */
module Boundaries {
  import opened Models
  import opened Backoff
  import opened Compensation
  import opened Tables
  import opened Adversary
  import opened Saga
  import opened Refinement
  import opened SagaTheorems

  /******* Attempt limits above 64 *******/

  function Upto(n: nat): seq<Action> {
    if n == 0 then [] else Upto(n - 1) + [Deliver(n - 1)]
  }

  /** The first `k` ids succeed, every other one fails. */
  function FirstSucceed(k: nat, nonRetryable: bool): Outcomes {
    id => if id < k then Succeeds else Fails(nonRetryable)
  }

  lemma {:induction false} UptoDelivers(n: nat)
    ensures OnlyDeliveries(Upto(n))
    ensures n > 0 ==> Upto(n)[..|Upto(n)| - 1] == Upto(n - 1) && Upto(n)[|Upto(n)| - 1] == Deliver(n - 1)
  {
    if n > 0 { UptoDelivers(n - 1); }
  }

  ghost predicate AtAttempt(wf: Workflow, t: Tables, o: Outcomes, k: nat, a: Attempt) {
    Refines(wf, t) && Agrees(t, o) && State(wf, t) == Forward(k, a) && |t.rows| == k + a
  }

  lemma {:induction false} NextActivity(wf: Workflow, t: Tables, o: Outcomes, k: nat)
    requires Sensible(wf) && AtAttempt(wf, t, o, k, 1) && k + 1 < |wf| && o(k) == Succeeds
    ensures AtAttempt(wf, Act(wf, t, o, Deliver(k)), o, k + 1, 1)
  {
    hide Refines, Sound, UndoPlan, Handle, Agrees;
    SuccessStep(wf, t);
    ReportAddsRow(wf, t, ReportSuccess(k));
    DeliverySettles(wf, t, o, Deliver(k));
  }

  lemma {:induction false} NextAttempt(wf: Workflow, t: Tables, o: Outcomes, k: nat, a: Attempt)
    requires Sensible(wf) && AtAttempt(wf, t, o, k, a) && a < Limit(wf, wf[k].name) && a < 64
    requires o(k + a - 1) == Fails(false)
    ensures AtAttempt(wf, Act(wf, t, o, Deliver(k + a - 1)), o, k, a + 1)
  {
    hide Refines, Sound, UndoPlan, Handle, Agrees;
    FailureStep(wf, t, false);
    ReportAddsRow(wf, t, ReportFailure(k + a - 1, false));
    DeliverySettles(wf, t, o, Deliver(k + a - 1));
  }

  lemma {:induction false} RunUpto(wf: Workflow, t: Tables, o: Outcomes, n: nat)
    requires n > 0
    ensures Run(wf, t, o, Upto(n)) == Act(wf, Run(wf, t, o, Upto(n - 1)), o, Deliver(n - 1))
  {
  }

  lemma {:induction false} StartAttempt(wf: Workflow, exec: string, o: Outcomes)
    requires Sensible(wf)
    ensures AtAttempt(wf, Create(exec, wf), o, 0, 1)
  {
    CreateRefines(exec, wf);
  }

  /** Every attempt up to its limit and up to 64 is reached. */
  lemma {:induction false} AttemptIsReached(wf: Workflow, exec: string, n: nat, nonRetryable: bool, k: nat, a: Attempt)
    requires Sensible(wf) && k <= n && k < |wf| && (a > 1 ==> k == n && !nonRetryable)
    requires a <= Limit(wf, wf[k].name) && a <= 64
    ensures var o := FirstSucceed(n, nonRetryable);
            AtAttempt(wf, Run(wf, Create(exec, wf), o, Upto(k + a - 1)), o, k, a)
    decreases k + a
  {
    var o := FirstSucceed(n, nonRetryable);
    if k + a > 1 {
      RunUpto(wf, Create(exec, wf), o, k + a - 1);
      ReachedBefore(wf, exec, n, nonRetryable, k, a, Run(wf, Create(exec, wf), o, Upto(k + a - 2)));
    } else {
      StartAttempt(wf, exec, o);
    }
  }

  lemma {:induction false} ReachedBefore(wf: Workflow, exec: string, n: nat, nonRetryable: bool, k: nat, a: Attempt,
      t: Tables)
    requires Sensible(wf) && k <= n && k < |wf| && (a > 1 ==> k == n && !nonRetryable) && k + a > 1
    requires a <= Limit(wf, wf[k].name) && a <= 64
    requires t == Run(wf, Create(exec, wf), FirstSucceed(n, nonRetryable), Upto(k + a - 2))
    ensures var o := FirstSucceed(n, nonRetryable); AtAttempt(wf, Act(wf, t, o, Deliver(k + a - 2)), o, k, a)
    decreases k + a, 0
  {
    hide Run, Act, Limit, AtAttempt;
    var o := FirstSucceed(n, nonRetryable);
    if a > 1 {
      AttemptIsReached(wf, exec, n, nonRetryable, k, a - 1);
      NextAttempt(wf, t, o, k, a - 1);
    } else {
      PositiveLimit(wf, k - 1);
      AttemptIsReached(wf, exec, n, nonRetryable, k - 1, 1);
      NextActivity(wf, t, o, k - 1);
    }
  }

  lemma {:induction false} PositiveLimit(wf: Workflow, k: nat)
    requires WellFormed(wf) && k < |wf|
    ensures Limit(wf, wf[k].name) == AttemptLimit(wf[k])
  {
  }

  /** Going on by its status, with nothing left to wait for. */
  ghost predicate Stranded(wf: Workflow, t: Tables, o: Outcomes) {
    && (t.status == Running || t.status == Compensating) && t.rows != []
    && (forall i | 0 <= i < |t.rows| :: Settled(t.rows[i]))
    && Agrees(t, o)
    && !Refines(wf, t)
  }

  lemma {:induction false} NothingPendingIsOver(wf: Workflow, t: Tables)
    requires t.rows != [] && (t.status == Running || t.status == Compensating) && Last(t.rows).status != RowPending
    ensures !Refines(wf, t)
  {
  }

  lemma {:induction false} Attempt65IsRefused(wf: Workflow, t: Tables, k: nat, o: Outcomes)
    requires Sensible(wf) && AtAttempt(wf, t, o, k, 64) && Limit(wf, wf[k].name) > 64
    requires o(|t.rows| - 1) == Fails(false)
    ensures Stranded(wf, Act(wf, t, o, Deliver(|t.rows| - 1)), o)
  {
    hide Handle, Sound, Refines, State, UndoPlan, PolicyOf, CompletedInOrder, DeadRowsFailed, Replay;
    var id := |t.rows| - 1;
    var tx := FailActivity(id);
    RefinesFacts(wf, t);
    DoingKind(wf, State(wf, t));
    var t1 := Commit(t, tx).t;
    RefusedSuccessor(wf, t, id);
    assert Act(wf, t, o, Deliver(id)) == t1;
    forall i | 0 <= i < |t1.rows| ensures Settled(t1.rows[i]) {
      SettledBeforeLast(wf, t, i);
    }
    NothingPendingIsOver(wf, t1);
  }

  lemma {:induction false} RefusedSuccessor(wf: Workflow, t: Tables, id: nat)
    requires id < |t.rows| && t.rows[id].status == RowPending && t.rows[id].attempt == 64
    requires RetriesLeft(wf, t.rows[id], false)
    ensures Handle(wf, t, ReportFailure(id, false)) == Reply(Commit(t, FailActivity(id)).t, false)
  {
    hide Tier, Pow2, Message;
    TierExact(65);
  }

  /** A stranded execution stays as it is: running or compensating, with nothing pending, whatever is delivered. */
  lemma {:induction false} StrandedForever(wf: Workflow, t: Tables, o: Outcomes, actions: seq<Action>)
    requires Stranded(wf, t, o) && OnlyDeliveries(actions)
    ensures Run(wf, t, o, actions) == t
  {
    if actions != [] {
      var init, a := actions[..|actions| - 1], actions[|actions| - 1];
      assert forall x | x in init :: x in actions;
      StrandedForever(wf, t, o, init);
      assert First(wf, t, CallOf(o, a)).Return?;
    }
  }

  /** Some activity allows more than 64 attempts: some run of deliveries strands the execution for good. */
  lemma {:induction false} TooManyAttemptsStrand(wf: Workflow, exec: string, k: nat)
    requires Sensible(wf) && k < |wf| && AttemptLimit(wf[k]) > 64
    ensures OnlyDeliveries(Upto(k + 64))
    ensures var o := FirstSucceed(k, false); Stranded(wf, Run(wf, Create(exec, wf), o, Upto(k + 64)), o)
  {
    var o := FirstSucceed(k, false);
    PositiveLimit(wf, k);
    AttemptIsReached(wf, exec, k, false, k, 64);
    UptoDelivers(k + 64);
    RunUpto(wf, Create(exec, wf), o, k + 64);
    Attempt65IsRefused(wf, Run(wf, Create(exec, wf), o, Upto(k + 63)), k, o);
  }

  ghost predicate AlwaysRefines(wf: Workflow, exec: string) {
    forall o: Outcomes, actions | OnlyDeliveries(actions) :: Refines(wf, Run(wf, Create(exec, wf), o, actions))
  }

  /**
   * The exact condition: all runs of deliveries refine the saga if and only if no activity allows more than 64
   * attempts.
   */
  lemma {:induction false} RefinesExactlyUpTo64(wf: Workflow, exec: string)
    requires Sensible(wf)
    ensures Backed(wf) <==> AlwaysRefines(wf, exec)
  {
    if Backed(wf) {
      BackedAlwaysRefines(wf, exec);
    } else {
      var k :| 0 <= k < |wf| && AttemptLimit(wf[k]) > 64;
      TooManyAttemptsStrand(wf, exec, k);
    }
  }

  lemma {:induction false} BackedAlwaysRefines(wf: Workflow, exec: string)
    requires Definition(wf)
    ensures AlwaysRefines(wf, exec)
  {
    forall o: Outcomes, actions | OnlyDeliveries(actions) ensures Refines(wf, Run(wf, Create(exec, wf), o, actions)) {
      DeliveriesAreAdmissible(wf, Create(exec, wf), o, actions);
      RunRefines(wf, exec, o, actions);
    }
  }

  /******* Compensations called like activities *******/

  /** A completed activity whose compensation is called like an activity. */
  predicate SharesName(wf: Workflow, r: ActivityRow) {
    && r.status == RowCompleted && IsForward(wf, r.name)
    && CompensationOf(wf, r.name) != "" && IsForward(wf, CompensationOf(wf, r.name))
  }

  ghost predicate AllCompensations(wf: Workflow, rows: seq<ActivityRow>) {
    forall r | r in rows :: Settled(r) && !IsForward(wf, r.name)
  }

  /**
   * The next-step function can be brought to answer that nothing is left, by settling compensations, if and only if
   * no activity has completed whose compensation is called like an activity: no row of any status counts such a
   * compensation as done.
   */
  lemma {:induction false} SharedNameNeverDone(wf: Workflow, acts: seq<ActivityRow>)
    ensures (exists more :: AllCompensations(wf, more) && DetermineNext(wf, acts + more) == None) <==>
            !exists r :: r in acts && SharesName(wf, r)
  {
    hide DetermineNext, IsForward, CompensationOf;
    if r :| r in acts && SharesName(wf, r) {
      forall more: seq<ActivityRow> ensures DetermineNext(wf, acts + more).Some? {
        SharedAwaits(wf, acts + more, r);
      }
    } else {
      AllUndone(wf, acts);
    }
  }

  lemma {:induction false} SharedAwaits(wf: Workflow, acts: seq<ActivityRow>, r: ActivityRow)
    requires r in acts && SharesName(wf, r)
    ensures DetermineNext(wf, acts).Some?
  {
    SomeAwaits(wf, acts, CompletedComps(wf, acts), r);
  }

  lemma {:induction false} SomeAwaits(wf: Workflow, acts: seq<ActivityRow>, done: set<string>, r: ActivityRow)
    requires r in acts && Awaiting(wf, r, done)
    ensures LastAwaiting(wf, acts, done).Some?
  {
    if acts[|acts| - 1] != r {
      assert acts == acts[..|acts| - 1] + [acts[|acts| - 1]];
      if !Awaiting(wf, acts[|acts| - 1], done) { SomeAwaits(wf, acts[..|acts| - 1], done, r); }
    }
  }

  lemma {:induction false} NoneAwaits(wf: Workflow, acts: seq<ActivityRow>, done: set<string>)
    requires forall r | r in acts :: !Awaiting(wf, r, done)
    ensures LastAwaiting(wf, acts, done).None?
  {
    if acts != [] {
      assert acts == acts[..|acts| - 1] + [acts[|acts| - 1]];
      NoneAwaits(wf, acts[..|acts| - 1], done);
    }
  }

  /** One completed row for the compensation of each row. */
  function UndoRows(wf: Workflow, acts: seq<ActivityRow>): seq<ActivityRow> {
    if acts == [] then []
    else
      var r := acts[|acts| - 1];
      UndoRows(wf, acts[..|acts| - 1]) +
      if r.status == RowCompleted && IsForward(wf, r.name) && CompensationOf(wf, r.name) != "" then
        [ActivityRow(CompensationOf(wf, r.name), 1, RowCompleted, "", None, false)]
      else []
  }

  lemma {:induction false} UndoRowsCover(wf: Workflow, acts: seq<ActivityRow>)
    requires forall r | r in acts :: !SharesName(wf, r)
    ensures AllCompensations(wf, UndoRows(wf, acts))
    ensures forall r | r in acts && r.status == RowCompleted && IsForward(wf, r.name) &&
              CompensationOf(wf, r.name) != "" ::
              exists x :: x in UndoRows(wf, acts) && x.name == CompensationOf(wf, r.name)
  {
    hide IsForward, CompensationOf;
    if acts != [] {
      var init, last := acts[..|acts| - 1], acts[|acts| - 1];
      assert acts == init + [last];
      UndoRowsCover(wf, init);
      forall r | r in acts && r.status == RowCompleted && IsForward(wf, r.name) && CompensationOf(wf, r.name) != ""
        ensures exists x :: x in UndoRows(wf, acts) && x.name == CompensationOf(wf, r.name)
      {
        if r in init {
          var x :| x in UndoRows(wf, init) && x.name == CompensationOf(wf, r.name);
          assert x in UndoRows(wf, acts);
        } else {
          assert UndoRows(wf, acts)[|UndoRows(wf, acts)| - 1].name == CompensationOf(wf, r.name);
        }
      }
    }
  }

  lemma {:induction false} AllUndone(wf: Workflow, acts: seq<ActivityRow>)
    requires forall r | r in acts :: !SharesName(wf, r)
    ensures AllCompensations(wf, UndoRows(wf, acts)) && DetermineNext(wf, acts + UndoRows(wf, acts)) == None
  {
    hide IsForward, CompensationOf;
    UndoRowsCover(wf, acts);
    var all := acts + UndoRows(wf, acts);
    var done := CompletedComps(wf, all);
    forall r | r in all ensures !Awaiting(wf, r, done) {
      if r in acts && r.status == RowCompleted && IsForward(wf, r.name) && CompensationOf(wf, r.name) != "" {
        var x :| x in UndoRows(wf, acts) && x.name == CompensationOf(wf, r.name);
        assert x in all && !IsForward(wf, x.name) && x.name in done;
      }
    }
    NoneAwaits(wf, all, done);
  }
}
