/** What the log tells of a saga: the rows settled, in order and as they were settled, and which one made it fail. */
module Journal {
  import opened Models
  import opened Keys
  import opened Compensation
  import opened Tables
  import opened Adversary
  import opened Refinement

  /** The events that tell of settled rows. */
  function Settlings(events: seq<Event>): seq<Event> {
    if events == [] then []
    else
      var ev := events[|events| - 1];
      Settlings(events[..|events| - 1]) + if ev.ActivityCompleted? || ev.ActivityFailed? then [ev] else []
  }

  /** What should be told of the settled rows, in the order of the rows. */
  function ToldOf(rows: seq<ActivityRow>): seq<Event> {
    if rows == [] then []
    else
      var r := rows[|rows| - 1];
      ToldOf(rows[..|rows| - 1]) +
      match r.status
      case RowPending => []
      case RowCompleted => [ActivityCompleted(r.name)]
      case RowFailed => [ActivityFailed(r.name)]
  }

  /** The log tells each settled row, in order; and when the execution has failed, last of all which row that was. */
  ghost predicate TellsRows(t: Tables) {
    && Settlings(t.events) == ToldOf(t.rows)
    && (t.status == Failed ==>
          t.rows != [] && t.events != [] && Last(t.events) == WorkflowFailed(Last(t.rows).name, false))
  }

  lemma {:induction false} SettlingsAppend(events: seq<Event>, ev: Event)
    ensures Settlings(events + [ev]) ==
              Settlings(events) + if ev.ActivityCompleted? || ev.ActivityFailed? then [ev] else []
  {
  }

  lemma {:induction false} ToldAppend(rows: seq<ActivityRow>, r: ActivityRow)
    ensures r.status == RowPending ==> ToldOf(rows + [r]) == ToldOf(rows)
    ensures r.status == RowCompleted ==> ToldOf(rows + [r]) == ToldOf(rows) + [ActivityCompleted(r.name)]
    ensures r.status == RowFailed ==> ToldOf(rows + [r]) == ToldOf(rows) + [ActivityFailed(r.name)]
  {
  }

  /** Settling the last row, which was pending. */
  lemma {:induction false} SettlingTells(t: Tables, tx: Tx)
    requires IsSettle(tx) && tx.id == |t.rows| - 1 && InRange(t, tx) && Last(t.rows).status == RowPending
    requires TellsRows(t) && t.status != Failed
    ensures TellsRows(Commit(t, tx).t) && Commit(t, tx).t.status == t.status
    ensures Commit(t, tx).t.rows != [] && Last(Commit(t, tx).t.rows).name == Last(t.rows).name
  {
    hide Message;
    var t1 := Commit(t, tx).t;
    assert t.rows == Init(t.rows) + [Last(t.rows)] && t1.rows == Init(t.rows) + [Last(t1.rows)];
    ToldAppend(Init(t.rows), Last(t.rows));
    ToldAppend(Init(t.rows), Last(t1.rows));
    SettlingsAppend(t.events, t1.events[|t.events|]);
  }

  lemma {:induction false} LaunchTells(t: Tables, status: ExecutionStatus, name: string, attempt: Attempt,
      ev: Event, tier: int)
    requires TellsRows(t) && status != Failed && (ev.ActivityScheduled? || ev.CompensationStarted?)
    ensures TellsRows(Launch(t, status, name, attempt, ev, tier).t)
  {
    hide Message, Key, KeyTaken, Settlings, ToldOf;
    var r := Launch(t, status, name, attempt, ev, tier);
    if r.ok {
      SettlingsAppend(t.events, ev);
      ToldAppend(t.rows, r.t.rows[|t.rows|]);
    }
  }

  /** Other transactions, if a failure names the last row. */
  lemma {:induction false} OthersTell(t: Tables, tx: Tx)
    requires TellsRows(t) && !IsSettle(tx) && !tx.CancelExecution? && t.rows != []
    requires tx.FailExecution? ==> tx.reason == Last(t.rows).name
    requires tx.ScheduleNextActivity? ==> t.status != Failed
    ensures TellsRows(Commit(t, tx).t)
  {
    hide Launch, Settlings, ToldOf;
    if !IsLaunch(tx) {
      SettlingsAppend(t.events, Commit(t, tx).t.events[|t.events|]);
      return;
    }
    match tx
    case ScheduleNextActivity(next, attempt, tier) =>
      LaunchTells(t, t.status, next, attempt,
          ActivityScheduled(next, if attempt == 1 then None else Some(attempt), false), tier);
    case StartCompensating(next, attempt, manual) =>
      LaunchTells(t, Compensating, next, attempt,
          CompensationStarted(next, if manual then Some(attempt) else None, manual), 0);
    case RetryActivity(comp, next, attempt) =>
      if comp {
        LaunchTells(t, Compensating, next, attempt, CompensationStarted(next, Some(attempt), true), 0);
      } else {
        LaunchTells(t, Running, next, attempt, ActivityScheduled(next, Some(attempt), true), 0);
      }
    case _ =>
  }

  /** What a report does after settling its row is no settling, and a failure names the row. */
  lemma {:induction false} SecondNames(wf: Workflow, before: ExecutionStatus, t1: Tables, call: Call)
    requires IsReport(call) && call.id < |t1.rows|
    ensures var d := Second(wf, before, t1, call);
            d.Do? ==>
              && !IsSettle(d.tx) && !d.tx.CancelExecution?
              && (d.tx.FailExecution? ==> d.tx.reason == t1.rows[call.id].name)
  {
    hide NextCompensation, PositionOf, PolicyOf;
  }

  lemma {:induction false} ReportTells(wf: Workflow, t: Tables, call: Call)
    requires TellsRows(t) && IsReport(call) && call.id == |t.rows| - 1 && t.status != Failed
    requires Last(t.rows).status == RowPending
    ensures TellsRows(Handle(wf, t, call).t)
  {
    hide First, Second, Commit, TellsRows;
    var d := First(wf, t, call);
    if d.Do? {
      SettlingTells(t, d.tx);
      var t1 := Commit(t, d.tx).t;
      SettledLength(t, d.tx);
      SecondNames(wf, t.status, t1, call);
      var d' := Second(wf, t.status, t1, call);
      if d'.Do? { OthersTell(t1, d'.tx); }
    }
  }

  lemma {:induction false} SettledLength(t: Tables, tx: Tx)
    requires IsSettle(tx) && InRange(t, tx)
    ensures |Commit(t, tx).t.rows| == |t.rows|
  {
  }

  lemma {:induction false} RetryTells(wf: Workflow, t: Tables, call: Call)
    requires TellsRows(t) && t.rows != [] && (call.RetryCompensation? || call.RetryDeadLettered?)
    ensures TellsRows(Handle(wf, t, call).t)
  {
    hide First, Commit, TellsRows;
    var d := First(wf, t, call);
    if d.Do? { OthersTell(t, d.tx); }
  }

  lemma {:induction false} ActTells(wf: Workflow, t: Tables, o: Outcomes, a: Action)
    requires Definition(wf) && Refines(wf, t) && Agrees(t, o) && TellsRows(t)
    ensures TellsRows(Act(wf, t, o, a))
  {
    hide Refines, State, Agrees, TellsRows, Handle, Definition;
    RefinesFacts(wf, t);
    if a.Deliver? {
      if Awaited(wf, t, a.id) {
        ReportTells(wf, t, CallOf(o, a));
      } else {
        DeliveryRefines(wf, t, o, a.id);
      }
    } else {
      RetryTells(wf, t, CallOf(o, a));
    }
  }

  /**
   * In every run of a saga, with retries by hand: the completions and failures in the log are those of the settled
   * rows, each once, in the order of the rows; and the log of a failed execution ends with the name of the row that
   * failed it.
   */
  lemma {:induction false} LogTellsRows(wf: Workflow, exec: string, o: Outcomes, actions: seq<Action>)
    requires Definition(wf) && AllAdmissible(wf, Create(exec, wf), o, actions)
    ensures TellsRows(Run(wf, Create(exec, wf), o, actions))
  {
    hide Refines, TellsRows, Create, Admissible, Act, Agrees, Definition;
    if actions == [] {
      StartTellsRows(wf, exec);
    } else {
      var init := actions[..|actions| - 1];
      LogTellsRows(wf, exec, o, init);
      RunRefines(wf, exec, o, init);
      ActTells(wf, Run(wf, Create(exec, wf), o, init), o, actions[|actions| - 1]);
    }
  }

  lemma {:induction false} StartTellsRows(wf: Workflow, exec: string)
    requires Definition(wf)
    ensures TellsRows(Create(exec, wf))
  {
    var t := Create(exec, wf);
    SettlingsAppend([], WorkflowStarted);
    assert [] + [WorkflowStarted] == [WorkflowStarted];
    SettlingsAppend([WorkflowStarted], t.events[1]);
    assert t.events == [WorkflowStarted] + [t.events[1]];
    ToldAppend([], t.rows[0]);
    assert t.rows == [] + [t.rows[0]];
  }
}
