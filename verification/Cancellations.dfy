/** What a cancellation does: it changes the status, and for an execution on its way forward nothing that follows. */
module Cancellations {
  import opened Models
  import opened Keys
  import opened Backoff
  import opened Compensation
  import opened Tables
  import opened Adversary
  import opened Saga
  import opened Refinement
  import opened SagaTheorems

  function Cancel(t: Tables, reason: string): Tables {
    Commit(t, CancelExecution(reason)).t
  }

  /** Executions that have ended keep their status, but for COMPENSATED ones; nothing but status and log changes. */
  lemma {:induction false} CancelExactly(t: Tables, reason: string)
    ensures var t' := Cancel(t, reason);
            && (t'.status != t.status <==> t.status in {Running, Compensating, Compensated})
            && (t'.status != t.status ==> t'.status == ExecutionStatus.Cancelled)
            && t' == t.(status := t'.status, events := t'.events)
            && |t'.events| == |t.events| + 1 && t'.events[..|t.events|] == t.events
            && t'.events[|t.events|] == WorkflowFailed(reason, true)
  {
  }

  /** The same but for the log, and for the status while one is RUNNING and the other CANCELLED. */
  ghost predicate SameCourse(t: Tables, c: Tables) {
    && c == t.(status := c.status, events := c.events)
    && (c.status == t.status || (t.status == Running && c.status == ExecutionStatus.Cancelled))
  }

  lemma {:induction false} FirstOnCourse(wf: Workflow, t: Tables, c: Tables, call: Call)
    requires SameCourse(t, c) && IsReport(call)
    ensures First(wf, t, call) == First(wf, c, call)
  {
    hide PolicyOf, RetriesLeft;
  }

  lemma {:induction false} SecondOnCourse(wf: Workflow, t: Tables, c: Tables, t1: Tables, c1: Tables, call: Call)
    requires SameCourse(t, c) && SameCourse(t1, c1) && IsReport(call)
    ensures Second(wf, t.status, t1, call) == Second(wf, c.status, c1, call)
  {
    hide PolicyOf, RetriesLeft, NextCompensation, PositionOf, Tier;
  }

  lemma {:induction false} CommitOnCourse(t: Tables, c: Tables, tx: Tx)
    requires SameCourse(t, c) && InRange(t, tx)
    ensures SameCourse(Commit(t, tx).t, Commit(c, tx).t) && Commit(t, tx).ok == Commit(c, tx).ok
  {
    hide Key, KeyTaken;
  }

  lemma {:induction false} HandleOnCourse(wf: Workflow, t: Tables, c: Tables, call: Call)
    requires SameCourse(t, c) && IsReport(call)
    ensures SameCourse(Handle(wf, t, call).t, Handle(wf, c, call).t)
    ensures Handle(wf, t, call).ok == Handle(wf, c, call).ok
  {
    hide First, Second, Commit, SameCourse;
    FirstOnCourse(wf, t, c, call);
    var d := First(wf, t, call);
    if d.Do? {
      InRangeOnCourse(t, c, d.tx);
      CommitOnCourse(t, c, d.tx);
      var t1, c1 := Commit(t, d.tx).t, Commit(c, d.tx).t;
      SecondOnCourse(wf, t, c, t1, c1, call);
      var d' := Second(wf, t.status, t1, call);
      if d'.Do? { CommitOnCourse(t1, c1, d'.tx); }
    }
  }

  lemma {:induction false} InRangeOnCourse(t: Tables, c: Tables, tx: Tx)
    requires SameCourse(t, c)
    ensures InRange(t, tx) <==> InRange(c, tx)
  {
  }

  lemma {:induction false} RunOnCourse(wf: Workflow, t: Tables, c: Tables, o: Outcomes, actions: seq<Action>)
    requires SameCourse(t, c) && OnlyDeliveries(actions)
    ensures SameCourse(Run(wf, t, o, actions), Run(wf, c, o, actions))
  {
    hide SameCourse, Handle;
    if actions != [] {
      var init, a := actions[..|actions| - 1], actions[|actions| - 1];
      assert forall x | x in init :: x in actions;
      RunOnCourse(wf, t, c, o, init);
      HandleOnCourse(wf, Run(wf, t, o, init), Run(wf, c, o, init), CallOf(o, a));
    }
  }

  /**
   * Cancelling a RUNNING execution stops nothing: whatever is delivered, it writes the same rows and messages as if it
   * had not been cancelled, and ends in the same way, COMPLETED included.
   */
  lemma {:induction false} CancelledGoesOn(wf: Workflow, t: Tables, reason: string, o: Outcomes, actions: seq<Action>)
    requires t.status == Running && OnlyDeliveries(actions)
    ensures var t', c' := Run(wf, t, o, actions), Run(wf, Cancel(t, reason), o, actions);
            && c'.rows == t'.rows && c'.outbox == t'.outbox && c'.current == t'.current
            && (if t'.status == Running then c'.status == ExecutionStatus.Cancelled || c'.status == Running
                else c'.status == t'.status)
  {
    hide Run;
    CancelExactly(t, reason);
    RunOnCourse(wf, t, Cancel(t, reason), o, actions);
  }

  /**
   * Cancelling a COMPENSATING one leaves it stranded at the next success: the compensation is completed, the handler
   * returns an error, no other compensation follows, and no delivery changes anything again.
   */
  lemma {:induction false} CancelledStrands(wf: Workflow, t: Tables, reason: string, o: Outcomes, id: nat,
      actions: seq<Action>)
    requires Sensible(wf) && Refines(wf, t) && Agrees(t, o) && t.status == Compensating && Awaited(wf, t, id)
    requires o(id).Succeeds? && OnlyDeliveries(actions)
    ensures var r := Handle(wf, Cancel(t, reason), ReportSuccess(id));
            && !r.ok && r.t.status == ExecutionStatus.Cancelled
            && r.t.rows == t.rows[id := t.rows[id].(status := RowCompleted, completedAt := Some(t.completions))]
            && r.t.outbox == t.outbox
            && Run(wf, r.t, o, actions) == r.t
  {
    hide Refines, State, UndoPlan, Sound, Run, NextCompensation, Agrees;
    RefinesFacts(wf, t);
    DoingKind(wf, State(wf, t));
    CompensatingUndoes(wf, t);
    CancelExactly(t, reason);
    var c := Cancel(t, reason);
    assert First(wf, c, ReportSuccess(id)) == Do(CompleteActivity(id));
    var c1 := Commit(c, CompleteActivity(id)).t;
    assert Second(wf, c.status, c1, ReportSuccess(id)) == Return(false);
    forall i | 0 <= i < |c1.rows|
      ensures Settled(c1.rows[i]) && (c1.rows[i].status == RowCompleted <==> o(i).Succeeds?)
    {
      SettledBeforeLast(wf, t, i);
      if i != id { RowAgrees(t, o, i); }
    }
    SettledStays(wf, c1, o, actions);
  }

  lemma {:induction false} RowAgrees(t: Tables, o: Outcomes, i: nat)
    requires Agrees(t, o) && i < |t.rows| && Settled(t.rows[i])
    ensures t.rows[i].status == RowCompleted <==> o(i).Succeeds?
  {
  }

  lemma {:induction false} CompensatingUndoes(wf: Workflow, t: Tables)
    requires Refines(wf, t) && t.status == Compensating && Active(State(wf, t))
    ensures State(wf, t).Undo? && Last(t.rows).name == Doing(wf, State(wf, t))
  {
    hide Refines, State, Sound, UndoPlan;
    RefinesFacts(wf, t);
  }

  /** Where every row is settled as its outcome says, deliveries change nothing, whatever the status. */
  lemma {:induction false} SettledStays(wf: Workflow, t: Tables, o: Outcomes, actions: seq<Action>)
    requires OnlyDeliveries(actions)
    requires forall i | 0 <= i < |t.rows| ::
               Settled(t.rows[i]) && (t.rows[i].status == RowCompleted <==> o(i).Succeeds?)
    ensures Run(wf, t, o, actions) == t
  {
    if actions != [] {
      var init, a := actions[..|actions| - 1], actions[|actions| - 1];
      assert forall x | x in init :: x in actions;
      SettledStays(wf, t, o, init);
      assert First(wf, t, CallOf(o, a)).Return?;
    }
  }
}
