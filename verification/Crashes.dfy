/** Handlers cut off between their two transactions, and what an operator can do about it. */
module Crashes {
  import opened Models
  import opened Compensation
  import opened Tables
  import opened Adversary
  import opened Saga
  import opened Refinement
  import opened SagaTheorems
  import opened Boundaries

  /** A report on the awaited row, cut off after its first transaction `tx`, which takes the machine to `s'`. */
  ghost predicate CutAfter(wf: Workflow, t: Tables, tx: Tx, s': Saga) {
    && Refines(wf, t) && IsSettle(tx) && Awaited(wf, t, tx.id)
    && Settles(wf, State(wf, t), tx, s') && SettledInto(wf, t, Commit(t, tx).t, s')
  }

  lemma {:induction false} CutFacts(wf: Workflow, t: Tables, tx: Tx, s': Saga)
    requires Sensible(wf) && CutAfter(wf, t, tx, s')
    ensures var t1 := Commit(t, tx).t;
            && Sound(t1) && CompletedInOrder(t1.rows) && DeadRowsFailed(t1.rows) && |t1.rows| == tx.id + 1
            && (t1.status == Running || t1.status == Compensating) && Replay(wf, t1.rows) == Some(s')
            && t1.rows[tx.id].name == Doing(wf, State(wf, t)) && t1.rows[tx.id].attempt == State(wf, t).a
            && (t1.rows[tx.id].deadLettered <==> tx.DeadLetterActivity?)
            && (t1.rows[tx.id].status == RowCompleted <==> tx.CompleteActivity?)
    ensures tx.DeadLetterActivity? ==> s' == OnGivingUp(wf, State(wf, t))
  {
    hide UndoPlan, Sound, CompletedInOrder, State;
    RefinesFacts(wf, t);
    PendingIsNotDead(wf, t);
  }

  lemma {:induction false} PendingIsNotDead(wf: Workflow, t: Tables)
    requires Refines(wf, t) && Active(State(wf, t))
    ensures !Last(t.rows).deadLettered
  {
  }

  /** What a crash between the two transactions of a report leaves behind. */
  lemma {:induction false} CutOffSettles(wf: Workflow, t: Tables, o: Outcomes, id: nat) returns (tx: Tx, s': Saga)
    requires Sensible(wf) && Refines(wf, t) && Awaited(wf, t, id)
    ensures CutAfter(wf, t, tx, s') && tx.id == id && (tx.CompleteActivity? <==> o(id).Succeeds?)
    ensures HandleCrashed(wf, t, CallOf(o, Deliver(id))) == Commit(t, tx).t
    ensures First(wf, t, CallOf(o, Deliver(id))) == Do(tx) && s' == Ideal(wf, State(wf, t), o(id))
  {
    hide Sound, UndoPlan, CompletedInOrder, Commit, SettledInto, Refines, State;
    var s := State(wf, t);
    RefinesFacts(wf, t);
    DoingKind(wf, s);
    match o(id) {
      case Succeeds =>
        tx, s' := CompleteActivity(id), OnSuccess(wf, s);
      case Fails(nonRetryable) =>
        var left := s.a < Limit(wf, Doing(wf, s)) && !nonRetryable;
        tx := if left then FailActivity(id) else DeadLetterActivity(id);
        s' := if left then OnRetry(s) else OnGivingUp(wf, s);
        assert left <==> RetriesLeft(wf, t.rows[id], nonRetryable);
    }
    SettleLast(wf, t, tx, s');
    assert First(wf, t, CallOf(o, Deliver(id))) == Do(tx);
  }

  /** Cut off while handling the awaited result, an execution is stranded, and no delivery ever changes it again. */
  lemma {:induction false} CutOffStrands(wf: Workflow, t: Tables, o: Outcomes, id: nat, actions: seq<Action>)
    requires Sensible(wf) && Refines(wf, t) && Agrees(t, o) && Awaited(wf, t, id) && OnlyDeliveries(actions)
    ensures var t1 := HandleCrashed(wf, t, CallOf(o, Deliver(id)));
            Stranded(wf, t1, o) && Run(wf, t1, o, actions) == t1
  {
    hide Refines, State, Sound, UndoPlan, Run, Stranded, OnlyDeliveries, HandleCrashed, CutAfter;
    var tx, s' := CutOffSettles(wf, t, o, id);
    CutOffIsStranded(wf, t, o, tx, s');
    StrandedForever(wf, Commit(t, tx).t, o, actions);
  }

  lemma {:induction false} CutOffIsStranded(wf: Workflow, t: Tables, o: Outcomes, tx: Tx, s': Saga)
    requires Sensible(wf) && CutAfter(wf, t, tx, s') && Agrees(t, o) && (tx.CompleteActivity? <==> o(tx.id).Succeeds?)
    ensures Stranded(wf, Commit(t, tx).t, o)
  {
    hide Sound, UndoPlan, State, Refines, CompletedInOrder, DeadRowsFailed;
    CutFacts(wf, t, tx, s');
    var t1 := Commit(t, tx).t;
    forall i | 0 <= i < |t1.rows|
      ensures Settled(t1.rows[i]) && (t1.rows[i].status == RowCompleted <==> o(i).Succeeds?)
    {
      SettledBeforeLast(wf, t, i);
    }
    NothingPendingIsOver(wf, t1);
  }

  /**
   * The exact condition: a handler that dies between its transactions keeps the execution in its saga if and only
   * if it was not handling the awaited result, on the way forward or back, after a success or a failure.
   */
  lemma {:induction false} CutOffExactly(wf: Workflow, t: Tables, o: Outcomes, id: nat)
    requires Sensible(wf) && Refines(wf, t) && Agrees(t, o)
    ensures Refines(wf, HandleCrashed(wf, t, CallOf(o, Deliver(id)))) <==> !Awaited(wf, t, id)
  {
    hide Refines, State, Stranded, Agrees, HandleCrashed;
    if Awaited(wf, t, id) {
      CutOffStrands(wf, t, o, id, []);
      StrandedIsNoSaga(wf, HandleCrashed(wf, t, CallOf(o, Deliver(id))), o);
    } else {
      UnawaitedIsUntouched(wf, t, o, id);
    }
  }

  lemma {:induction false} StrandedIsNoSaga(wf: Workflow, t: Tables, o: Outcomes)
    requires Stranded(wf, t, o)
    ensures !Refines(wf, t)
  {
  }

  lemma {:induction false} UnawaitedIsUntouched(wf: Workflow, t: Tables, o: Outcomes, id: nat)
    requires Refines(wf, t) && Agrees(t, o) && !Awaited(wf, t, id)
    ensures HandleCrashed(wf, t, CallOf(o, Deliver(id))) == t
  {
    hide Refines, State;
    if id < |t.rows| { SettledBeforeLast(wf, t, id); }
  }

  /******* What an operator can do *******/

  /** Retrying row `i` launches its successor if that is allowed and the successor does not exist. */
  lemma {:induction false} RetryEffect(wf: Workflow, t: Tables, i: nat)
    requires Sound(t) && (t.status == Running || t.status == Compensating)
    ensures Handle(wf, t, RetryDeadLettered(i)).t != t <==>
              i < |t.rows| && t.rows[i].deadLettered && !HasRow(t.rows, t.rows[i].name, t.rows[i].attempt + 1)
    ensures var t' := Handle(wf, t, RetryDeadLettered(i)).t;
            t' != t ==>
              && |t'.rows| == |t.rows| + 1 && Init(t'.rows) == t.rows && Last(t'.rows).status == RowPending
              && Last(t'.rows).name == t.rows[i].name && Last(t'.rows).attempt == t.rows[i].attempt + 1
  {
    hide Message;
    if i < |t.rows| { KeysTell(t, t.rows[i].name, t.rows[i].attempt + 1); }
  }

  /** What comes after the row just settled is a later attempt of it only if it failed, and not when turning back. */
  lemma {:induction false} NextIsLater(wf: Workflow, s: Saga, tx: Tx, s': Saga, r: ActivityRow)
    requires WellFormed(wf) && Settles(wf, s, tx, s') && r.attempt > 1
    ensures IsAttempt(wf, Resume(s'), r) ==> r.name == Doing(wf, s) && r.attempt == s.a + 1
    ensures IsAttempt(wf, Resume(s'), r) && tx.DeadLetterActivity? ==> !Active(s')
    ensures tx.DeadLetterActivity? && !Active(s') && r.name == Doing(wf, s) && r.attempt == s.a + 1 ==>
              IsAttempt(wf, Resume(s'), r)
    ensures tx.CompleteActivity? ==> !IsAttempt(wf, Resume(s'), r)
  {
    hide UndoPlan;
  }

  /** The saga goes on with the successor of a dead-lettered row only if it is the row just settled, and stuck. */
  lemma {:induction false} SuccessorOfSettled(wf: Workflow, t: Tables, tx: Tx, s': Saga, i: nat, r: ActivityRow)
    requires Sensible(wf) && CutAfter(wf, t, tx, s')
    requires var rows := Commit(t, tx).t.rows;
             i < |rows| && rows[i].deadLettered && r.name == rows[i].name && r.attempt == rows[i].attempt + 1
    ensures IsAttempt(wf, Resume(s'), r) <==> i == tx.id && tx.DeadLetterActivity? && !Active(s')
  {
    hide UndoPlan, CompletedInOrder, DeadRowsFailed, Refines, State, Resume, IsAttempt, TimesBounded, OneTaskPerRow,
         AttemptsContiguous, KeysFormed, Commit;
    CutFacts(wf, t, tx, s');
    NextIsLater(wf, State(wf, t), tx, s', r);
    if IsAttempt(wf, Resume(s'), r) { RowsDiffer(Commit(t, tx).t, i, tx.id); }
  }

  lemma {:induction false} OtherAttemptRefinesNot(wf: Workflow, t: Tables)
    requires t.rows != [] && Last(t.rows).status == RowPending && Replay(wf, Init(t.rows)).Some?
    requires !IsAttempt(wf, Resume(Replay(wf, Init(t.rows)).value), Last(t.rows))
    ensures !Refines(wf, t)
  {
  }

  lemma {:induction false} SuccessorRefines(wf: Workflow, t: Tables, i: nat, r: ActivityRow)
    requires Sensible(wf) && Sound(t) && CompletedInOrder(t.rows) && DeadRowsFailed(t.rows)
    requires (t.status == Running || t.status == Compensating) && i < |t.rows| && t.rows[i].deadLettered
    requires Replay(wf, t.rows).Some? && IsAttempt(wf, Resume(Replay(wf, t.rows).value), r)
    requires r.name == t.rows[i].name && r.attempt == t.rows[i].attempt + 1
    ensures Refines(wf, Handle(wf, t, RetryDeadLettered(i)).t)
  {
    hide UndoPlan, Sound, CompletedInOrder, DeadRowsFailed, Refines, Commit, Resume, Replay, State, PositionOf;
    DoingKind(wf, Resume(Replay(wf, t.rows).value));
    var tx := RetryActivity(!IsForward(wf, r.name), r.name, r.attempt);
    assert HasRow(t.rows, r.name, r.attempt - 1);
    FollowUpLaunch(wf, t, tx);
  }

  /** A stuck attempt has no successor yet. */
  lemma {:induction false} StuckHasNoSuccessor(wf: Workflow, t: Tables, tx: Tx, s': Saga)
    requires Sensible(wf) && CutAfter(wf, t, tx, s') && tx.DeadLetterActivity? && !Active(s')
    ensures var r := Commit(t, tx).t.rows[tx.id]; !HasRow(Commit(t, tx).t.rows, r.name, r.attempt + 1)
  {
    hide UndoPlan, Sound, CompletedInOrder, DeadRowsFailed, State, Refines, HasRow, Replay, Commit;
    CutFacts(wf, t, tx, s');
    AttemptIsFresh(wf, Commit(t, tx).t.rows);
  }

  lemma {:induction false} RescueOfSettled(wf: Workflow, t: Tables, tx: Tx, s': Saga, i: nat)
    requires Sensible(wf) && CutAfter(wf, t, tx, s')
    ensures Refines(wf, Handle(wf, Commit(t, tx).t, RetryDeadLettered(i)).t) <==>
              i == tx.id && tx.DeadLetterActivity? && !Active(s')
  {
    hide Refines, State, Handle, UndoPlan, Sound, Commit, Resume, IsAttempt, HasRow, Replay, SettledInto, Settles;
    var t1 := Commit(t, tx).t;
    var t2 := Handle(wf, t1, RetryDeadLettered(i)).t;
    CutFacts(wf, t, tx, s');
    assert !Refines(wf, t1) by { SettledRefinesNot(wf, t, tx, s'); }
    RetryEffect(wf, t1, i);
    if t2 != t1 {
      var r := Last(t2.rows);
      SuccessorOfSettled(wf, t, tx, s', i, r);
      if IsAttempt(wf, Resume(s'), r) {
        SuccessorRefines(wf, t1, i, r);
      } else {
        OtherAttemptRefinesNot(wf, t2);
      }
    } else if i == tx.id && tx.DeadLetterActivity? && !Active(s') {
      StuckHasNoSuccessor(wf, t, tx, s');
    }
  }

  lemma {:induction false} SettledRefinesNot(wf: Workflow, t: Tables, tx: Tx, s': Saga)
    requires Sensible(wf) && CutAfter(wf, t, tx, s')
    ensures !Refines(wf, Commit(t, tx).t)
  {
    hide Refines, State, UndoPlan, Sound;
    CutFacts(wf, t, tx, s');
    RefinesFacts(wf, t);
    NothingPendingIsOver(wf, Commit(t, tx).t);
  }

  /**
   * Of all retries by hand of a stranded execution, exactly one brings it back into its saga: that of the row whose
   * handler was cut off, if it was dead-lettered and its saga was to give up, not to turn back. It launches the next
   * attempt. After a success, after a failure with attempts left, and before turning back no retry does.
   */
  lemma {:induction false} RescueExactly(wf: Workflow, t: Tables, o: Outcomes, id: nat, i: nat)
    requires Sensible(wf) && Refines(wf, t) && Awaited(wf, t, id)
    ensures var s, t1 := State(wf, t), HandleCrashed(wf, t, CallOf(o, Deliver(id)));
            Refines(wf, Handle(wf, t1, RetryDeadLettered(i)).t) <==>
              i == id < |t1.rows| && t1.rows[id].deadLettered && !Active(OnGivingUp(wf, s))
  {
    hide Refines, State, HandleCrashed, Handle, CutAfter, OnGivingUp;
    var tx, s' := CutOffSettles(wf, t, o, id);
    CutFacts(wf, t, tx, s');
    RescueOfSettled(wf, t, tx, s', i);
  }

  /** A retry of the compensation is refused throughout, since the execution has not failed. */
  lemma {:induction false} NoCompensationRetry(wf: Workflow, t: Tables, o: Outcomes, acts: seq<ActivityRow>)
    requires Stranded(wf, t, o)
    ensures Handle(wf, t, RetryCompensation(acts)) == Reply(t, false)
  {
  }
}
