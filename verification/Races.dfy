/**
 * Calls without a lock that race with a report: the retry of a dead-lettered row, and a cancellation. For every point
 * of the handler at which they can strike, this says exactly when some serial order of the two explains the outcome.
 */
module Races {
  import opened Models
  import opened Keys
  import opened Backoff
  import opened Compensation
  import opened Tables
  import opened Adversary
  import opened Saga
  import opened Refinement
  import opened Boundaries
  import opened Crashes
  import opened Serial

  datatype Unlocked = RetryRow(id: nat) | CancelIt(reason: string)

  /** The tables after a call that takes no lock. */
  function Struck(wf: Workflow, t: Tables, x: Unlocked): Tables {
    match x
    case RetryRow(id) => Handle(wf, t, RetryDeadLettered(id)).t
    case CancelIt(reason) => Commit(t, CancelExecution(reason)).t
  }

  /** What the second transaction makes of the tables. */
  function Followed(t: Tables, d: Decision): Tables {
    if d.Do? && InRange(t, d.tx) then Commit(t, d.tx).t else t
  }

  /******* What the log tells *******/

  /** Events of manual retries and cancellations; handlers of reports write none of these. */
  predicate ByHand(ev: Event) {
    match ev
    case ActivityScheduled(_, _, manual) => manual
    case CompensationStarted(_, _, manual) => manual
    case WorkflowFailed(_, byUser) => byUser
    case _ => false
  }

  /** The tables are as before, or have one more event, by hand or not. */
  ghost predicate OneEvent(t: Tables, t': Tables, byHand: bool) {
    t' == t || exists ev :: ByHand(ev) == byHand && t'.events == t.events + [ev]
  }

  lemma {:induction false} StruckAdds(wf: Workflow, t: Tables, x: Unlocked)
    ensures OneEvent(t, Struck(wf, t, x), true)
    ensures x.CancelIt? ==> Struck(wf, t, x) != t
  {
    hide KeyTaken, Message, PositionOf;
    var t' := Struck(wf, t, x);
    if t' != t {
      var ev := t'.events[|t.events|];
      assert ByHand(ev) && t'.events == t.events + [ev];
    }
    if x.CancelIt? { assert |t'.events| == |t.events| + 1; }
  }

  predicate IsFollowUp(d: Decision) {
    d.Do? ==>
      || d.tx.ScheduleNextActivity? || (d.tx.StartCompensating? && !d.tx.manual)
      || d.tx.CompleteExecution? || d.tx.CompensatedExecution? || d.tx.FailExecution?
  }

  lemma {:induction false} SecondFollowsUp(wf: Workflow, before: ExecutionStatus, t: Tables, call: Call)
    ensures IsFollowUp(Second(wf, before, t, call))
  {
    hide NextCompensation, PositionOf, RetriesLeft, Tier;
  }

  lemma {:induction false} FollowUpAdds(t: Tables, d: Decision)
    requires IsFollowUp(d)
    ensures OneEvent(t, Followed(t, d), false)
  {
    hide KeyTaken, Message, FitsInt32;
    var t' := Followed(t, d);
    if t' != t {
      var ev := t'.events[|t.events|];
      assert !ByHand(ev) && t'.events == t.events + [ev];
    }
  }

  /** The first transaction of a report. */
  lemma {:induction false} FirstSettles(wf: Workflow, t: Tables, call: Call)
    requires IsReport(call) && First(wf, t, call).Do?
    ensures var tx := First(wf, t, call).tx;
            && IsSettle(tx) && tx.id == call.id < |t.rows| && Commit(t, tx).ok
            && Commit(t, tx).t.status == t.status && Commit(t, tx).t.exec == t.exec
            && OneEvent(t, Commit(t, tx).t, false) && Commit(t, tx).t != t
    ensures Handle(wf, t, call).t ==
            var t1 := Commit(t, First(wf, t, call).tx).t; Followed(t1, Second(wf, t.status, t1, call))
  {
    hide Second, PolicyOf, RetriesLeft, Message;
    var tx := First(wf, t, call).tx;
    var t1 := Commit(t, tx).t;
    var ev := t1.events[|t.events|];
    assert !ByHand(ev) && t1.events == t.events + [ev] && |t1.events| == |t.events| + 1;
  }

  /** What a caller can read off: the retry is refused if and only if one of these holds. */
  ghost predicate Refused(t: Tables, id: nat) {
    || id >= |t.rows| || !t.rows[id].deadLettered
    || t.status == Compensated || t.status == ExecutionStatus.Cancelled || t.status == Completed
    || KeyTaken(t.rows, Key(t.exec, t.rows[id].name, t.rows[id].attempt + 1))
  }

  lemma {:induction false} RefusedExactly(wf: Workflow, t: Tables, id: nat)
    ensures Struck(wf, t, RetryRow(id)) == t <==> Refused(t, id)
    ensures Handle(wf, t, RetryDeadLettered(id)).ok <==> !Refused(t, id)
  {
    hide KeyTaken, Message, PositionOf;
    if !Refused(t, id) {
      assert |Struck(wf, t, RetryRow(id)).rows| == |t.rows| + 1;
    }
  }

  /** Settling a row keeps all that a retry looks at, or adds a dead letter. */
  lemma {:induction false} SettlingKeeps(t: Tables, tx: Tx, i: nat)
    requires IsSettle(tx) && InRange(t, tx) && i < |t.rows|
    ensures var t' := Commit(t, tx).t;
            && |t'.rows| == |t.rows| && t'.status == t.status && t'.exec == t.exec
            && t'.rows[i].name == t.rows[i].name && t'.rows[i].attempt == t.rows[i].attempt
            && t'.rows[i].key == t.rows[i].key && (t.rows[i].deadLettered ==> t'.rows[i].deadLettered)
  {
  }

  lemma {:induction false} SettlingKeepsKeys(t: Tables, tx: Tx, key: string)
    requires IsSettle(tx) && InRange(t, tx) && KeyTaken(Commit(t, tx).t.rows, key)
    ensures KeyTaken(t.rows, key)
  {
    hide Commit;
    SettlingKeeps(t, tx, tx.id);
    var i :| 0 <= i < |Commit(t, tx).t.rows| && Commit(t, tx).t.rows[i].key == key;
    SettlingKeeps(t, tx, i);
  }

  /** A retry refused after a report's first transaction would have been refused before it. */
  lemma {:induction false} RefusedBefore(wf: Workflow, t: Tables, tx: Tx, id: nat)
    requires IsSettle(tx) && InRange(t, tx) && Struck(wf, Commit(t, tx).t, RetryRow(id)) == Commit(t, tx).t
    ensures Struck(wf, t, RetryRow(id)) == t
  {
    hide Commit, Struck, KeyTaken, Key;
    var t1 := Commit(t, tx).t;
    RefusedExactly(wf, t1, id);
    RefusedExactly(wf, t, id);
    if id < |t.rows| {
      SettlingKeeps(t, tx, id);
      var next := Key(t.exec, t.rows[id].name, t.rows[id].attempt + 1);
      if KeyTaken(t1.rows, next) { SettlingKeepsKeys(t, tx, next); }
    }
  }

  /** Two logs that differ at a position are not the same. */
  lemma {:induction false} LogsDiffer(t: Tables, t': Tables, n: nat)
    requires n < |t.events| && (n < |t'.events| ==> ByHand(t.events[n]) != ByHand(t'.events[n]))
    ensures t != t'
  {
  }

  lemma {:induction false} HandleKeepsLogPrefix(wf: Workflow, t: Tables, call: Call)
    requires IsReport(call)
    ensures t.events <= Handle(wf, t, call).t.events
  {
    hide First, Second, Commit;
    var d := First(wf, t, call);
    if d.Do? {
      FirstSettles(wf, t, call);
      var t1 := Commit(t, d.tx).t;
      SecondFollowsUp(wf, t.status, t1, call);
      FollowUpAdds(t1, Second(wf, t.status, t1, call));
    }
  }

  /******* Between the two transactions *******/

  /** One after the other, in the one order or the other. */
  predicate SomeOrder(wf: Workflow, t0: Tables, call: Call, x: Unlocked, t: Tables) {
    t == Struck(wf, Handle(wf, t0, call).t, x) || t == Handle(wf, Struck(wf, t0, x), call).t
  }

  /**
   * The exact condition between the two transactions, whether the second was decided on before or after the call
   * struck: some serial order explains the outcome if and only if the call changed nothing, or the handler's second
   * transaction has no effect with it or without.
   */
  lemma {:induction false} MidwayExactly(wf: Workflow, t0: Tables, call: Call, x: Unlocked, d: Decision)
    requires IsReport(call) && First(wf, t0, call).Do?
    requires var t1 := Commit(t0, First(wf, t0, call).tx).t;
             d == Second(wf, t0.status, t1, call) || d == Second(wf, t0.status, Struck(wf, t1, x), call)
    ensures var t1 := Commit(t0, First(wf, t0, call).tx).t;
            var t2 := Struck(wf, t1, x);
            var t3 := Followed(t2, d);
            SomeOrder(wf, t0, call, x, t3) <==> t2 == t1 || (t3 == t2 && Handle(wf, t0, call).t == t1)
  {
    hide First, Second, Commit, Handle, Struck, Followed, IsFollowUp;
    FirstSettles(wf, t0, call);
    var t1 := Commit(t0, First(wf, t0, call).tx).t;
    var t2 := Struck(wf, t1, x);
    var t3 := Followed(t2, d);
    SecondFollowsUp(wf, t0.status, t1, call);
    SecondFollowsUp(wf, t0.status, t2, call);
    StruckAdds(wf, t1, x);
    if t2 == t1 {
      assert x.RetryRow?;
      RefusedBefore(wf, t0, First(wf, t0, call).tx, x.id);
    } else {
      FollowUpAdds(t2, d);
      StruckFirst(wf, t0, call, x, t3);
      StruckLast(wf, t0, call, x, t1, t3);
    }
  }

  /** The log of the race shows the report first: the order with the call first is another. */
  lemma {:induction false} StruckFirst(wf: Workflow, t0: Tables, call: Call, x: Unlocked, t3: Tables)
    requires IsReport(call) && First(wf, t0, call).Do?
    requires var t1 := Commit(t0, First(wf, t0, call).tx).t;
             |t3.events| > |t0.events| + 1 && t1.events + [t3.events[|t0.events| + 1]] <= t3.events
             && ByHand(t3.events[|t0.events| + 1])
    ensures t3 != Handle(wf, Struck(wf, t0, x), call).t
  {
    hide First, Second, Commit, Handle, Struck, Followed, IsFollowUp;
    var n := |t0.events|;
    FirstSettles(wf, t0, call);
    StruckAdds(wf, t0, x);
    var t', h := Struck(wf, t0, x), Handle(wf, Struck(wf, t0, x), call).t;
    if t' == t0 {
      var t1 := Commit(t0, First(wf, t0, call).tx).t;
      SecondFollowsUp(wf, t0.status, t1, call);
      FollowUpAdds(t1, Second(wf, t0.status, t1, call));
      LogsDiffer(t3, h, n + 1);
    } else {
      HandleKeepsLogPrefix(wf, t', call);
      LogsDiffer(t3, h, n);
    }
  }

  /** The order with the call last is another, too, unless the handler's second transaction has no effect. */
  lemma {:induction false} StruckLast(wf: Workflow, t0: Tables, call: Call, x: Unlocked, t1: Tables, t3: Tables)
    requires IsReport(call) && First(wf, t0, call).Do? && t1 == Commit(t0, First(wf, t0, call).tx).t
    requires |t3.events| > |t0.events| + 1 && t1.events + [t3.events[|t0.events| + 1]] <= t3.events
    requires ByHand(t3.events[|t0.events| + 1])
    ensures Handle(wf, t0, call).t != t1 ==> t3 != Struck(wf, Handle(wf, t0, call).t, x)
  {
    hide First, Second, Commit, Handle, Struck, Followed, IsFollowUp;
    FirstSettles(wf, t0, call);
    var h := Handle(wf, t0, call).t;
    SecondFollowsUp(wf, t0.status, t1, call);
    FollowUpAdds(t1, Second(wf, t0.status, t1, call));
    if h != t1 {
      StruckAdds(wf, h, x);
      LogsDiffer(t3, Struck(wf, h, x), |t0.events| + 1);
    }
  }

  /******* Before the first transaction *******/

  /** The call strikes after the handler has read, and before it commits. */
  function Overtaken(wf: Workflow, t0: Tables, call: Call, x: Unlocked): Tables
    requires First(wf, t0, call).Do?
  {
    var t1 := CommitIfThere(Struck(wf, t0, x), First(wf, t0, call).tx);
    Followed(t1, Second(wf, t0.status, t1, call))
  }

  function CommitIfThere(t: Tables, tx: Tx): Tables {
    if InRange(t, tx) then Commit(t, tx).t else t
  }

  /** The follow-up of a report depends on the status read before in one way only. */
  predicate SameTurn(before: ExecutionStatus, status: ExecutionStatus) {
    before == Compensating <==> status == Compensating
  }

  /**
   * A failure for good finds compensations due, and the call has taken the status into or out of COMPENSATING: the
   * handler, which read the status before, turns back where it should give up, or gives up where it should turn back.
   */
  ghost predicate Turned(wf: Workflow, t0: Tables, call: Call, x: Unlocked)
    requires First(wf, t0, call).Do?
  {
    var t1 := CommitIfThere(Struck(wf, t0, x), First(wf, t0, call).tx);
    && !SameTurn(t0.status, t1.status)
    && call.ReportFailure? && call.id < |t1.rows| && !RetriesLeft(wf, t1.rows[call.id], call.nonRetryable)
    && NextCompensation(wf, t1.rows).Some?
  }

  /** A handler would have decided the same after the call as before, since its row is the same. */
  lemma {:induction false} SameFirst(wf: Workflow, t: Tables, call: Call, x: Unlocked)
    requires IsReport(call) && First(wf, t, call).Do?
    ensures First(wf, Struck(wf, t, x), call) == First(wf, t, call) && InRange(Struck(wf, t, x), First(wf, t, call).tx)
  {
    hide KeyTaken, Message, PositionOf, RetriesLeft, PolicyOf;
    assert t.rows <= Struck(wf, t, x).rows;
  }

  /** The status read before matters to nothing but the turn. */
  lemma {:induction false} TurnTells(wf: Workflow, before: ExecutionStatus, status: ExecutionStatus, t: Tables,
      call: Call)
    requires IsReport(call)
    ensures Followed(t, Second(wf, before, t, call)) == Followed(t, Second(wf, status, t, call)) <==>
              Second(wf, before, t, call) == Second(wf, status, t, call)
    ensures Second(wf, before, t, call) == Second(wf, status, t, call) <==>
              !(&& !SameTurn(before, status)
                && call.ReportFailure? && call.id < |t.rows| && !RetriesLeft(wf, t.rows[call.id], call.nonRetryable)
                && NextCompensation(wf, t.rows).Some?)
  {
    hide KeyTaken, Message, RetriesLeft, NextCompensation;
    var d, d' := Second(wf, before, t, call), Second(wf, status, t, call);
    if d != d' {
      assert Followed(t, d).status == Failed || Followed(t, d').status == Failed;
      assert |t.events| + 1 == |Followed(t, if d.tx.FailExecution? then d else d').events|;
      assert Followed(t, if d.tx.FailExecution? then d else d').events[|t.events|].WorkflowFailed?;
    }
  }

  /** When a call takes the status into or out of COMPENSATING, as a caller can read it off. */
  lemma {:induction false} TurnsExactly(wf: Workflow, t: Tables, x: Unlocked)
    ensures !SameTurn(t.status, Struck(wf, t, x).status) <==>
              match x
              case CancelIt(_) => t.status == Compensating
              case RetryRow(id) =>
                !Refused(t, id) && (t.status == Compensating <==> IsForward(wf, t.rows[id].name))
  {
    hide KeyTaken, Message, PositionOf;
  }

  /**
   * The exact condition before the first transaction: some serial order explains the outcome, namely the one with
   * the call first, unless the handler takes the wrong turn. This is what the serial order of `Serial` asks for.
   */
  lemma {:induction false} EarlyExactly(wf: Workflow, t0: Tables, call: Call, x: Unlocked)
    requires IsReport(call) && First(wf, t0, call).Do?
    ensures SomeOrder(wf, t0, call, x, Overtaken(wf, t0, call, x)) <==> !Turned(wf, t0, call, x)
    ensures First(wf, Struck(wf, t0, x), call) == First(wf, t0, call)
    ensures Unturned(wf, t0.status, Struck(wf, t0, x), call) <==> !Turned(wf, t0, call, x)
  {
    hide First, Second, Commit, Handle, Struck, Followed, IsFollowUp, SameTurn, RetriesLeft, NextCompensation;
    SameFirst(wf, t0, call, x);
    var t', tx := Struck(wf, t0, x), First(wf, t0, call).tx;
    var t1 := Commit(t', tx).t;
    FirstSettles(wf, t', call);
    TurnTells(wf, t0.status, t1.status, t1, call);
    if Turned(wf, t0, call, x) {
      StruckAdds(wf, t0, x);
      assert t' != t0 by { SameStatus(wf, t0, call); }
      SecondFollowsUp(wf, t0.status, t1, call);
      FollowUpAdds(t1, Second(wf, t0.status, t1, call));
      ReportFirst(wf, t0, call, x, Overtaken(wf, t0, call, x));
    }
  }

  lemma {:induction false} SameStatus(wf: Workflow, t: Tables, call: Call)
    requires IsReport(call) && First(wf, t, call).Do?
    ensures SameTurn(t.status, Commit(t, First(wf, t, call).tx).t.status)
  {
    hide First;
  }

  /** The log shows the call first: the order with the call last is another. */
  lemma {:induction false} ReportFirst(wf: Workflow, t0: Tables, call: Call, x: Unlocked, t3: Tables)
    requires IsReport(call) && First(wf, t0, call).Do?
    requires |t3.events| > |t0.events| && ByHand(t3.events[|t0.events|])
    ensures t3 != Struck(wf, Handle(wf, t0, call).t, x)
  {
    hide First, Second, Commit, Handle, Struck, Followed, IsFollowUp;
    FirstSettles(wf, t0, call);
    var t1, h := Commit(t0, First(wf, t0, call).tx).t, Handle(wf, t0, call).t;
    SecondFollowsUp(wf, t0.status, t1, call);
    FollowUpAdds(t1, Second(wf, t0.status, t1, call));
    StruckAdds(wf, h, x);
    LogsDiffer(t3, Struck(wf, h, x), |t0.events|);
  }

  /******* Late, and planned before *******/

  /**
   * A retry that decided earlier and commits at `t`: this is the retry run as a whole at `t` if and only if the
   * successor exists already, or the execution has not been completed, compensated or cancelled meanwhile.
   */
  lemma {:induction false} StaleRetryExactly(wf: Workflow, earlier: Tables, t: Tables, id: nat)
    requires First(wf, earlier, RetryDeadLettered(id)).Do? && earlier.exec == t.exec && id < |t.rows|
    requires t.rows[id].deadLettered && t.rows[id].name == earlier.rows[id].name
    requires t.rows[id].attempt == earlier.rows[id].attempt
    ensures Commit(t, First(wf, earlier, RetryDeadLettered(id)).tx).t == Struck(wf, t, RetryRow(id)) <==>
              || KeyTaken(t.rows, Key(t.exec, t.rows[id].name, t.rows[id].attempt + 1))
              || (t.status != Completed && t.status != Compensated && t.status != ExecutionStatus.Cancelled)
  {
    hide KeyTaken, Message, PositionOf;
    var t' := Commit(t, First(wf, earlier, RetryDeadLettered(id)).tx).t;
    if !KeyTaken(t.rows, Key(t.exec, t.rows[id].name, t.rows[id].attempt + 1)) {
      assert |t'.rows| == |t.rows| + 1;
    }
  }

  /******* In a saga *******/

  /** The awaited report always has a follow-up. */
  lemma {:induction false} AwaitedFollowsUp(wf: Workflow, t: Tables, call: Call)
    requires Definition(wf) && Refines(wf, t) && IsReport(call) && Awaited(wf, t, call.id)
    ensures First(wf, t, call).Do? && Handle(wf, t, call).t != Commit(t, First(wf, t, call).tx).t
  {
    hide Refines, State, Handle, First, Commit, CutAfter, Ideal;
    var o: Outcomes := _ => if call.ReportSuccess? then Succeeds else Fails(call.nonRetryable);
    assert call == CallOf(o, Deliver(call.id));
    var tx, s' := CutOffSettles(wf, t, o, call.id);
    SettledRefinesNot(wf, t, tx, s');
    if call.ReportSuccess? {
      SuccessStep(wf, t);
    } else {
      LimitIsBacked(wf, Doing(wf, State(wf, t)));
      FailureStep(wf, t, call.nonRetryable);
    }
  }

  /**
   * In a saga, between the two transactions of the awaited report: no serial order explains a cancellation there, and
   * one explains a retry exactly if it is refused.
   */
  lemma {:induction false} AwaitedMidway(wf: Workflow, t0: Tables, call: Call, x: Unlocked, d: Decision)
    requires Definition(wf) && Refines(wf, t0) && IsReport(call) && Awaited(wf, t0, call.id)
    requires First(wf, t0, call).Do?
    requires var t1 := Commit(t0, First(wf, t0, call).tx).t;
             d == Second(wf, t0.status, t1, call) || d == Second(wf, t0.status, Struck(wf, t1, x), call)
    ensures var t1 := Commit(t0, First(wf, t0, call).tx).t;
            SomeOrder(wf, t0, call, x, Followed(Struck(wf, t1, x), d)) <==> x.RetryRow? && Refused(t1, x.id)
  {
    hide Refines, First, Second, Commit, Handle, Struck, Followed, Awaited, SomeOrder, Refused;
    var t1 := Commit(t0, First(wf, t0, call).tx).t;
    MidwayExactly(wf, t0, call, x, d);
    AwaitedFollowsUp(wf, t0, call);
    StruckAdds(wf, t1, x);
    if x.RetryRow? { RefusedExactly(wf, t1, x.id); }
  }

  /******* One such run *******/

  /** The first activity fails for good, and is retried between the two transactions of that report. */
  function Race(e: string): seq<Turn> {
    [Start(e), Acquire(0, e, ReportFailure(0, true)), Read(0), Write(0),
     PlanRetry(0, e, 0), FireRetry(0), Read(0), Write(0), Release(0)]
  }

  lemma {:induction false} NothingToUndo(wf: Workflow, rows: seq<ActivityRow>)
    requires forall r | r in rows :: r.status != RowCompleted
    ensures NextCompensation(wf, rows) == None
  {
    SameMembers(rows, Listing(rows));
    NoneAwaits(wf, Listing(rows), CompletedComps(wf, Listing(rows)));
  }

  /** The transactions of the race on the tables, one after the other. */
  lemma {:induction false} RacingTables(wf: Workflow, e: string)
    requires wf != []
    ensures var name, t0 := wf[0].name, Create(e, wf);
            var call := ReportFailure(0, true);
            var t1 := Commit(t0, DeadLetterActivity(0)).t;
            var t2 := Commit(t1, RetryActivity(false, name, 2)).t;
            && First(wf, t0, call) == Do(DeadLetterActivity(0)) && t0.status == Running && t1.exec == e
            && First(wf, t1, RetryDeadLettered(0)) == Do(RetryActivity(false, name, 2))
            && Commit(t1, RetryActivity(false, name, 2)).ok
            && |t2.rows| == 2 && t2.rows[1].status == RowPending && t2.status == Running
            && Second(wf, Running, t2, call) == Do(FailExecution(name))
  {
    hide NextCompensation, Key, Message;
    var name, t0 := wf[0].name, Create(e, wf);
    assert PositionOf(wf, name).Some?;
    var t1 := Commit(t0, DeadLetterActivity(0)).t;
    assert t1.rows[0].key == Key(e, name, 1);
    if Key(e, name, 1) == Key(e, name, 2) { KeyInjective(e, name, 1, e, name, 2); }
    var t2 := Commit(t1, RetryActivity(false, name, 2)).t;
    NothingToUndo(wf, t2.rows);
  }

  /** Either serial order of the two calls ends elsewhere: running again, or with one row. */
  lemma {:induction false} SerialOrders(wf: Workflow, e: string)
    requires wf != []
    ensures var t0, call, retry := Create(e, wf), ReportFailure(0, true), RetryDeadLettered(0);
            && Handle(wf, Handle(wf, t0, call).t, retry).t.status == Running
            && |Handle(wf, Handle(wf, t0, retry).t, call).t.rows| == 1
  {
    hide NextCompensation, Key, Message;
    var name, t0 := wf[0].name, Create(e, wf);
    var t1 := Commit(t0, DeadLetterActivity(0)).t;
    assert PositionOf(wf, name).Some?;
    NothingToUndo(wf, t1.rows);
    assert Handle(wf, t0, ReportFailure(0, true)).t == Commit(t1, FailExecution(name)).t;
    assert t1.rows[0].key == Key(e, name, 1);
    if Key(e, name, 1) == Key(e, name, 2) { KeyInjective(e, name, 1, e, name, 2); }
    assert Handle(wf, t0, RetryDeadLettered(0)).t == t0;
  }

  lemma {:induction false} OneTurn(c: Config, turns: seq<Turn>, n: nat)
    requires n < |turns|
    ensures RunTurns(c, Empty(), turns[..n + 1]) == Next(c, RunTurns(c, Empty(), turns[..n]), turns[n])
  {
    assert turns[..n + 1][..n] == turns[..n];
  }

  lemma {:induction false} RaceTurns(c: Config, e: string, n: nat)
    requires n <= 9
    ensures n == 0 ==> RunTurns(c, Empty(), Race(e)[..n]) == Empty()
    ensures n < 9 ==> RunTurns(c, Empty(), Race(e)[..n + 1]) == Next(c, RunTurns(c, Empty(), Race(e)[..n]), Race(e)[n])
    ensures RunTurns(c, Empty(), Race(e)[..9]) == RunTurns(c, Empty(), Race(e))
  {
    hide Next;
    if n < 9 { OneTurn(c, Race(e), n); }
    assert Race(e)[..9] == Race(e);
  }

  /** The systems that the race goes through: one execution, one handler, one retry. */
  function At(c: Config, e: string, t: Tables, phase: Phase, plans: map<nat, Plan>, done: seq<Entry>): System {
    System(map[e := t], map[c.hash(e) := 0], map[0 := Handler(e, ReportFailure(0, true), phase)], plans, done)
  }

  lemma {:induction false} AloneIn(e: string, t: Tables, tx: Tx)
    requires InRange(t, tx) && Commit(t, tx).ok
    ensures CommitIn(map[e := t], e, tx) == (map[e := Commit(t, tx).t], true)
  {
    hide Message, FitsInt32;
    var db: Db := map[e := t];
    assert db[e] == t && db[e := Commit(t, tx).t] == map[e := Commit(t, tx).t];
  }

  lemma {:induction false} RaceStarts(c: Config, e: string)
    requires |e| == c.idLength
    ensures Next(c, Next(c, Empty(), Start(e)), Acquire(0, e, ReportFailure(0, true))) ==
            At(c, e, Create(e, c.wf(e)), Locked, map[], [Started(e)])
  {
    hide Create;
  }

  lemma {:induction false} RaceReads(c: Config, e: string, t: Tables, phase: Phase, plans: map<nat, Plan>,
      done: seq<Entry>)
    ensures Next(c, At(c, e, t, phase, plans, done), Read(0)) ==
            At(c, e, t, ReadPhase(c.wf(e), t, ReportFailure(0, true), phase), plans, done)
  {
    hide ReadPhase;
  }

  lemma {:induction false} RaceWrites(c: Config, e: string, t: Tables, phase: Phase, plans: map<nat, Plan>,
      done: seq<Entry>, tx: Tx, before: ExecutionStatus)
    requires InRange(t, tx) && Commit(t, tx).ok
    requires phase == Decided(Do(tx), before) || phase == DecidedAgain(Do(tx))
    ensures Next(c, At(c, e, t, phase, plans, done), Write(0)) ==
            At(c, e, Commit(t, tx).t, if phase.Decided? then Half(before) else Phase.Finished, plans,
               if phase.Decided? then done else done + [Handled(e, ReportFailure(0, true), Whole)])
  {
    hide Commit, CommitIn;
    AloneIn(e, t, tx);
    var s := At(c, e, t, phase, plans, done);
    assert s.db[e] == t && s.handlers[0] == Handler(e, ReportFailure(0, true), phase);
  }

  lemma {:induction false} RaceRetries(c: Config, e: string, t: Tables, phase: Phase, done: seq<Entry>, tx: Tx)
    requires First(c.wf(e), t, RetryDeadLettered(0)) == Do(tx) && Commit(t, tx).ok
    ensures Next(c, Next(c, At(c, e, t, phase, map[], done), PlanRetry(0, e, 0)), FireRetry(0)) ==
            At(c, e, Commit(t, tx).t, phase, map[], done + [Handled(e, RetryDeadLettered(0), Whole)])
  {
    hide Commit, CommitIn, First;
    AloneIn(e, t, tx);
    var s := At(c, e, t, phase, map[], done);
    assert s.db[e] == t;
    var s' := Next(c, s, PlanRetry(0, e, 0));
    assert s' == s.(plans := map[0 := Plan(e, 0, tx)]);
  }

  lemma {:induction false} RaceEnds(c: Config, e: string, t: Tables, done: seq<Entry>)
    ensures Next(c, At(c, e, t, Phase.Finished, map[], done), Release(0)) ==
            System(map[e := t], map[], map[], map[], done)
  {
  }

  lemma {:induction false} RaceRuns(c: Config, e: string)
    requires c.wf(e) != [] && |e| == c.idLength
    ensures var s, name := RunTurns(c, Empty(), Race(e)), c.wf(e)[0].name;
            var t1 := Commit(Create(e, c.wf(e)), DeadLetterActivity(0)).t;
            var t2 := Commit(t1, RetryActivity(false, name, 2)).t;
            s.handlers == map[] && s.db == map[e := Commit(t2, FailExecution(name)).t]
  {
    hide Commit, First, Second, Create, Next, RunTurns, Race;
    var wf, call := c.wf(e), ReportFailure(0, true);
    var name, t0 := wf[0].name, Create(e, wf);
    var dead, retry, fail := DeadLetterActivity(0), RetryActivity(false, name, 2), FailExecution(name);
    RacingTables(wf, e);
    RaceIs(e);
    RaceTurns(c, e, 0);
    RaceTurns(c, e, 1);
    RaceTurns(c, e, 2);
    RaceTurns(c, e, 3);
    RaceTurns(c, e, 4);
    RaceTurns(c, e, 5);
    RaceTurns(c, e, 6);
    RaceTurns(c, e, 7);
    RaceTurns(c, e, 8);
    RaceStarts(c, e);
    var done := [Entry.Started(e)];
    RaceReads(c, e, t0, Locked, map[], done);
    DeadCommits(t0, dead);
    RaceWrites(c, e, t0, Decided(Do(dead), Running), map[], done, dead, Running);
    var t1 := Commit(t0, dead).t;
    RaceRetries(c, e, t1, Half(Running), done, retry);
    var t2, done2 := Commit(t1, retry).t, done + [Handled(e, RetryDeadLettered(0), Whole)];
    RaceReads(c, e, t2, Half(Running), map[], done2);
    DeadCommits(t2, fail);
    RaceWrites(c, e, t2, DecidedAgain(Do(fail)), map[], done2, fail, Running);
    RaceEnds(c, e, Commit(t2, fail).t, done2 + [Handled(e, ReportFailure(0, true), Whole)]);
  }

  lemma {:induction false} RaceIs(e: string)
    ensures |Race(e)| == 9 && Race(e)[0] == Start(e) && Race(e)[1] == Acquire(0, e, ReportFailure(0, true))
    ensures Race(e)[2] == Read(0) && Race(e)[3] == Write(0) && Race(e)[4] == PlanRetry(0, e, 0)
    ensures Race(e)[5] == FireRetry(0) && Race(e)[6] == Read(0) && Race(e)[7] == Write(0) && Race(e)[8] == Release(0)
  {
  }

  lemma {:induction false} DeadCommits(t: Tables, tx: Tx)
    requires InRange(t, tx) && !IsLaunch(tx)
    ensures Commit(t, tx).ok
  {
  }

  /**
   * The racing run, for every definition: the execution ends FAILED with a pending row, which is no state of its saga
   * and no result of running the two calls one after the other, in either order.
   */
  lemma {:induction false} RacingRetry(c: Config, e: string)
    requires c.wf(e) != [] && |e| == c.idLength
    ensures var s, wf := RunTurns(c, Empty(), Race(e)), c.wf(e);
            var t0, call, retry := Create(e, wf), ReportFailure(0, true), RetryDeadLettered(0);
            && s.handlers == map[] && e in s.db
            && s.db[e].status == Failed && |s.db[e].rows| == 2 && s.db[e].rows[1].status == RowPending
            && s.db[e] != Handle(wf, Handle(wf, t0, call).t, retry).t
            && s.db[e] != Handle(wf, Handle(wf, t0, retry).t, call).t
            && !Refines(wf, s.db[e])
  {
    hide Key, Message, RunTurns, Race, Launch;
    var wf := c.wf(e);
    RaceRuns(c, e);
    RacingTables(wf, e);
    SerialOrders(wf, e);
    FailedHasNoPending(wf, RunTurns(c, Empty(), Race(e)).db[e]);
  }

  lemma {:induction false} FailedHasNoPending(wf: Workflow, t: Tables)
    requires t.status == Failed && t.rows != [] && Last(t.rows).status == RowPending
    ensures !Refines(wf, t)
  {
  }
}
