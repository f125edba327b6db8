/** The engine's handlers, statement by statement over the repository. */
module Engine {
  import opened Models
  import opened Keys
  import opened Backoff
  import opened Compensation
  import opened Tables
  import opened Repository

  /******* What a handler's branches amount to *******/

  lemma {:induction false} OneTransaction(wf: Workflow, t: Tables, call: Call, tx: Tx, ok: bool)
    requires First(wf, t, call) == Do(tx) && Commit(t, tx).ok
    requires Second(wf, t.status, Commit(t, tx).t, call) == Return(ok)
    ensures Handle(wf, t, call) == Reply(Commit(t, tx).t, ok)
  {
  }

  lemma {:induction false} TwoTransactions(wf: Workflow, t: Tables, call: Call, tx: Tx, tx': Tx)
    requires First(wf, t, call) == Do(tx) && Commit(t, tx).ok
    requires Second(wf, t.status, Commit(t, tx).t, call) == Do(tx')
    ensures Handle(wf, t, call) == Commit(Commit(t, tx).t, tx')
  {
  }

  lemma {:induction false} SuccessFirst(wf: Workflow, t: Tables, id: nat)
    ensures var call := ReportSuccess(id);
            if id >= |t.rows| then Handle(wf, t, call) == Reply(t, false)
            else if t.rows[id].status == RowCompleted then Handle(wf, t, call) == Reply(t, true)
            else First(wf, t, call) == Do(CompleteActivity(id))
  {
  }

  lemma {:induction false} SuccessSecond(wf: Workflow, before: ExecutionStatus, t1: Tables, id: nat)
    requires id < |t1.rows|
    ensures var d := Second(wf, before, t1, ReportSuccess(id));
            if t1.status == Compensating then
              (match NextCompensation(wf, t1.rows)
               case Some(c) => d == Do(StartCompensating(c, 1, false))
               case None => d == Do(CompensatedExecution))
            else
              match PositionOf(wf, t1.rows[id].name)
              case None => d == Return(false)
              case Some(i) =>
                d == if i + 1 < |wf| then Do(ScheduleNextActivity(wf[i + 1].name, 1, 0)) else Do(CompleteExecution)
  {
  }

  lemma {:induction false} FailureFirst(wf: Workflow, t: Tables, id: nat, nonRetryable: bool)
    ensures var call := ReportFailure(id, nonRetryable);
            if id >= |t.rows| then Handle(wf, t, call) == Reply(t, false)
            else if t.rows[id].status == RowFailed then Handle(wf, t, call) == Reply(t, true)
            else if PolicyOf(wf, t.rows[id].name).None? then Handle(wf, t, call) == Reply(t, false)
            else
              First(wf, t, call) ==
              Do(if RetriesLeft(wf, t.rows[id], nonRetryable) then FailActivity(id) else DeadLetterActivity(id))
  {
  }

  /** The transaction that follows a failure for good; `before` is the status ahead of it. */
  function CompensateOrFail(wf: Workflow, before: ExecutionStatus, rows: seq<ActivityRow>, name: string): (tx: Tx)
    ensures tx.StartCompensating? || tx.FailExecution?
  {
    var next := NextCompensation(wf, rows);
    if next.Some? && before != Compensating then Tx.StartCompensating(next.value, 1, false) else Tx.FailExecution(name)
  }

  /** The transaction that follows a completion while compensating. */
  function CompensationOrEnd(wf: Workflow, rows: seq<ActivityRow>): Tx {
    match NextCompensation(wf, rows)
    case Some(c) => Tx.StartCompensating(c, 1, false)
    case None => Tx.CompensatedExecution
  }

  /** The transaction that follows the completion of activity `i`. */
  function ActivityOrEnd(wf: Workflow, i: nat): Tx {
    if i + 1 < |wf| then Tx.ScheduleNextActivity(wf[i + 1].name, 1, 0) else Tx.CompleteExecution
  }

  lemma {:induction false} PutNothing(v: map<string, Record>, e: string)
    requires e in v
    ensures Put(v, e, v[e].tables) == v
  {
  }

  /******* Results off the queue *******/

  /** A body that does not parse is no result. */
  datatype Delivery = Malformed | Result(msg: ResultMessage)

  datatype Verdict = Ack | Requeue | Discard

  function CallFor(m: ResultMessage): Call {
    if m.success then ReportSuccess(m.id) else ReportFailure(m.id, m.nonRetryable)
  }

  /** What the handler does with a result. */
  ghost function ReplyTo(workflows: map<string, Workflow>, v: map<string, Record>, m: ResultMessage): Reply
    requires m.exec in v && v[m.exec].workflowId in workflows
  {
    Handle(workflows[v[m.exec].workflowId], v[m.exec].tables, CallFor(m))
  }

  ghost predicate Known(workflows: map<string, Workflow>, v: map<string, Record>, d: Delivery) {
    d.Result? && d.msg.exec in v && v[d.msg.exec].workflowId in workflows
  }

  /** Results are handled one after the other. */
  ghost function Consume(workflows: map<string, Workflow>, v: map<string, Record>, ds: seq<Delivery>): map<string,
      Record> {
    if ds == [] then v
    else
      var v1, d := Consume(workflows, v, ds[..|ds| - 1]), ds[|ds| - 1];
      if Known(workflows, v1, d) then Put(v1, d.msg.exec, ReplyTo(workflows, v1, d.msg).t) else v1
  }

  /** A result is acknowledged exactly when its handler ran to its end; otherwise it goes back to the queue. */
  ghost function VerdictOn(workflows: map<string, Workflow>, v: map<string, Record>, d: Delivery): Verdict {
    if d.Malformed? then Discard
    else if Known(workflows, v, d) && ReplyTo(workflows, v, d.msg).ok then Ack
    else Requeue
  }

  /** A result that is about a row carries the row's name. */
  ghost predicate NamesItsRow(v: map<string, Record>, d: Delivery) {
    d.Result? && d.msg.exec in v && d.msg.id < |v[d.msg.exec].tables.rows| ==>
      v[d.msg.exec].tables.rows[d.msg.id].name == d.msg.name
  }

  lemma {:induction false} ConsumeNothing(workflows: map<string, Workflow>, v: map<string, Record>)
    ensures forall ds: seq<Delivery> :: Consume(workflows, v, ds[..0]) == v
  {
  }

  lemma {:induction false} ConsumeStep(workflows: map<string, Workflow>, v: map<string, Record>, ds: seq<Delivery>,
      i: nat)
    requires i < |ds|
    ensures var v1, d := Consume(workflows, v, ds[..i]), ds[i];
            Consume(workflows, v, ds[..i + 1]) ==
            if Known(workflows, v1, d) then Put(v1, d.msg.exec, ReplyTo(workflows, v1, d.msg).t) else v1
  {
    hide Put, ReplyTo, Known;
    assert ds[..i + 1][..i] == ds[..i];
  }

  lemma {:induction false} CreateInsertsFirst(e: string, wf: Workflow)
    ensures Create(e, wf) ==
            if wf == [] then Tables(e, Completed, "", [], 0, [WorkflowStarted], [], 0)
            else FirstInserted(Tables(e, Running, wf[0].name, [], 0, [WorkflowStarted], [], 0), wf[0].name)
  {
  }

  /** An empty definition is completed at once; any other runs, its first activity pending. */
  lemma {:induction false} EmptyIsCompleted(e: string, wf: Workflow)
    ensures Create(e, wf).status == (if wf == [] then Completed else Running)
    ensures |Create(e, wf).rows| == |Create(e, wf).outbox| == if wf == [] then 0 else 1
    ensures wf != [] ==>
              var r := Create(e, wf).rows[0];
              r.name == wf[0].name && r.attempt == 1 && r.status == RowPending && !r.deadLettered
  {
  }

  class Engine {
    const repo: ExecutionRepo
    /** The definitions, by id; `WorkflowRepo` keeps them. */
    var workflows: map<string, Workflow>

    /** Every execution refers to a definition that exists. */
    ghost predicate Valid()
      reads this, repo`executions, repo`activities, repo`events, repo`keys, repo`outbox, repo`written
    {
      repo.Valid() && forall e | e in repo.View() :: repo.View()[e].workflowId in workflows
    }

    /** The call left `e` as `r` says, left everything else alone, and put what it wrote into the outbox. */
    twostate predicate Did(e: string, r: Reply, ok: bool)
      requires old(Valid())
      reads this, repo
    {
      && Valid() && e in old(repo.executions)
      && ok == r.ok && repo.Leaves(e, r.t)
      && repo.locked == old(repo.locked)
      && repo.outbox == old(repo.outbox) + NewMessages(old(repo.Slice(e)), r.t)
    }

    twostate predicate Unchanged()
      requires old(Valid())
      reads this, repo
    {
      Valid() && repo.View() == old(repo.View()) && repo.locked == old(repo.locked) && repo.outbox == old(repo.outbox)
    }

    ghost function DefinitionOf(e: string): Workflow
      requires Valid() && e in repo.executions
      reads this, repo`executions, repo`activities, repo`events, repo`keys, repo`outbox, repo`written
    {
      workflows[repo.View()[e].workflowId]
    }

    constructor (repo: ExecutionRepo, workflows: map<string, Workflow>)
      requires repo.Valid() && forall e | e in repo.View() :: repo.View()[e].workflowId in workflows
      ensures Valid() && this.repo == repo && this.workflows == workflows
    {
      hide ExecutionRepo.Valid, ExecutionRepo.View;
      this.repo := repo;
      this.workflows := workflows;
    }

    /** Starts an execution under the fresh id `e`. */
    method StartWorkflow(workflowId: string, e: string) returns (ok: bool)
      requires Valid() && e !in repo.executions && |e| == ID_LENGTH
      modifies repo
      ensures Valid() && ok == (workflowId in workflows)
      ensures ok ==> repo.Adds(e, workflowId, Create(e, workflows[workflowId]))
      ensures ok ==> repo.outbox == old(repo.outbox) + repo.Slice(e).outbox
      ensures ok ==> repo.Slice(e).status == (if workflows[workflowId] == [] then Completed else Running)
      ensures ok ==> |repo.Slice(e).rows| == (if workflows[workflowId] == [] then 0 else 1)
      ensures !ok ==> unchanged(repo)
    {
      hide ExecutionRepo.Valid, ExecutionRepo.View, Key, Create, FirstInserted;
      if workflowId !in workflows {
        return false;
      }
      var wf := workflows[workflowId];
      var status, current, first := Running, "", None;
      if |wf| > 0 {
        current, first := wf[0].name, Some(wf[0].name);
      } else {
        status := Completed;
      }
      CreateInsertsFirst(e, wf);
      EmptyIsCompleted(e, wf);
      repo.CreateExecution(e, workflowId, status, current, first);
      assert repo.Slice(e) == Create(e, wf);
      ok := true;
    }

    /** Lists the rows and looks up the compensation due, whatever order they are listed in. */
    method LookUpCompensation(e: string, wf: Workflow) returns (nextComp: Option<string>)
      requires repo.Valid() && e in repo.executions
      ensures nextComp == NextCompensation(wf, repo.Slice(e).rows)
    {
      hide ExecutionRepo.Valid, ExecutionRepo.View, NextCompensation, DetermineNext, IsListing, Timed;
      var acts := repo.ListActivityExecutions(e);
      nextComp := DetermineNextCompensation(wf, acts);
      repo.RowsAreTimed(e);
      AnyListingAgrees(wf, repo.Slice(e).rows, acts);
    }

    /** The follow-up of a completion while compensating: the next compensation, or the end. */
    method NextOrCompensated(e: string, wf: Workflow) returns (ok: bool)
      requires Valid() && e in repo.executions
      modifies repo
      ensures Did(e, Commit(old(repo.Slice(e)), CompensationOrEnd(wf, old(repo.Slice(e)).rows)), ok)
    {
      hide ExecutionRepo.Valid, ExecutionRepo.View, Launch, NextCompensation;
      var nextComp := LookUpCompensation(e, wf);
      match nextComp {
        case Some(name) =>
          ok := repo.StartCompensating(e, name, 1, CompensationStarted(name, None, false));
        case None =>
          repo.CompensatedExecution(e, CompensationCompleted);
          ok := true;
      }
    }

    /** The follow-up of a completion on the way forward: the next activity, or the end. */
    method NextOrCompleted(e: string, wf: Workflow, activityName: string) returns (ok: bool)
      requires Valid() && e in repo.executions
      modifies repo
      ensures var t := old(repo.Slice(e));
              match PositionOf(wf, activityName)
              case None => Did(e, Reply(t, false), ok)
              case Some(i) => Did(e, Commit(t, ActivityOrEnd(wf, i)), ok)
    {
      hide ExecutionRepo.Valid, ExecutionRepo.View, Launch, PositionOf;
      var nextAct: Option<Activity> := None;
      var found := false;
      var i := 0;
      while i < |wf|
        invariant 0 <= i <= |wf| && !found && nextAct.None?
        invariant forall k | 0 <= k < i :: wf[k].name != activityName
      {
        if wf[i].name == activityName {
          if i + 1 < |wf| {
            nextAct := Some(wf[i + 1]);
          }
          found := true;
          break;
        }
        i := i + 1;
      }
      if !found {
        return false;
      }
      if nextAct.Some? {
        var name := nextAct.value.name;
        ok := repo.ScheduleNextActivity(e, name, 1, ActivityScheduled(name, None, false), 0);
      } else {
        repo.CompleteExecution(e, WorkflowCompleted);
        ok := true;
      }
    }

    /** The success handler, once it has the lock. */
    method CompleteAndFollow(id: nat, e: string, activityName: string) returns (ok: bool)
      requires Valid() && e in repo.executions
      requires id < |repo.Slice(e).rows| ==> repo.Slice(e).rows[id].name == activityName
      modifies repo
      ensures Did(e, Handle(old(DefinitionOf(e)), old(repo.Slice(e)), ReportSuccess(id)), ok)
    {
      hide ExecutionRepo.Valid, ExecutionRepo.View, Put, Handle, First, Second, Launch, NextCompensation, PositionOf;
      ghost var v, t, wf0 := repo.View(), repo.Slice(e), DefinitionOf(e);
      ghost var call := ReportSuccess(id);
      PutAgain(v, e, t, t);
      SuccessFirst(wf0, t, id);
      var actExec := repo.GetActivityExecution(e, id);
      if actExec.None? {
        PutNothing(v, e);
        return false;
      }
      if actExec.value.status == RowCompleted {
        PutNothing(v, e);
        return true;
      }
      repo.CompleteActivity(e, id, ActivityCompleted(activityName));
      ghost var t1 := Commit(t, Tx.CompleteActivity(id)).t;
      PutAgain(v, e, t1, t1);
      assert repo.Slice(e) == t1;
      SuccessSecond(wf0, t.status, t1, id);
      var exec := repo.GetExecution(e);
      var wf := workflows[exec.value.workflowId];
      if exec.value.status == Compensating {
        ok := NextOrCompensated(e, wf);
        TwoTransactions(wf, t, call, Tx.CompleteActivity(id), CompensationOrEnd(wf, t1.rows));
      } else {
        ok := NextOrCompleted(e, wf, activityName);
        match PositionOf(wf, activityName)
        case None => OneTransaction(wf, t, call, Tx.CompleteActivity(id), false);
        case Some(i) => TwoTransactions(wf, t, call, Tx.CompleteActivity(id), ActivityOrEnd(wf, i));
      }
      PutAgain(v, e, t1, Handle(wf, t, call).t);
    }

    /** The activity whose retry policy governs a name: its own, else the first it compensates. */
    method FindPolicy(wf: Workflow, activityName: string) returns (wfAct: Option<Activity>)
      ensures wfAct == PolicyOf(wf, activityName)
    {
      wfAct := None;
      for i := 0 to |wf|
        invariant wfAct.None? && forall k | 0 <= k < i :: wf[k].name != activityName
      {
        if wf[i].name == activityName {
          wfAct := Some(wf[i]);
          break;
        }
      }
      if wfAct.None? {
        for i := 0 to |wf|
          invariant wfAct.None? && forall k | 0 <= k < i :: wf[k].compensation != activityName
          invariant PositionOf(wf, activityName).None?
        {
          if wf[i].compensation == activityName {
            wfAct := Some(wf[i]);
            break;
          }
        }
      }
    }

    /** The follow-up of a failure that may be retried: the next attempt, after a delay that doubles up to 16. */
    method ScheduleRetry(e: string, activityName: string, attempt: Attempt) returns (ok: bool)
      requires Valid() && e in repo.executions
      modifies repo
      ensures Did(e,
                Commit(old(repo.Slice(e)), Tx.ScheduleNextActivity(activityName, attempt + 1, Tier(attempt + 1))), ok)
    {
      hide ExecutionRepo.Valid, ExecutionRepo.View, Launch, ShiftOne;
      var nextAttempt: Attempt := attempt + 1;
      var tier := ShiftOne(nextAttempt - 2);
      if tier > 16 {
        tier := 16;
      }
      ok := repo.ScheduleNextActivity(e, activityName, nextAttempt,
          ActivityScheduled(activityName, Some(nextAttempt), false), tier);
    }

    /**
     * The follow-up of a failure for good: turn back, if there is anything to undo and undoing has not begun; else
     * fail.
     */
    method TurnBackOrFail(e: string, wf: Workflow, before: ExecutionStatus, activityName: string) returns (ok: bool)
      requires Valid() && e in repo.executions
      modifies repo
      ensures Did(e,
                  Commit(old(repo.Slice(e)), CompensateOrFail(wf, before, old(repo.Slice(e)).rows, activityName)), ok)
    {
      hide ExecutionRepo.Valid, ExecutionRepo.View, Launch, NextCompensation;
      var nextComp := LookUpCompensation(e, wf);
      if nextComp.Some? && before != Compensating {
        ok := repo.StartCompensating(e, nextComp.value, 1, CompensationStarted(nextComp.value, None, false));
      } else {
        repo.FailExecution(e, WorkflowFailed(activityName, false));
        ok := true;
      }
    }

    method FailAndRetry(id: nat, e: string, activityName: string, attempt: Attempt) returns (ok: bool)
      requires Valid() && e in repo.executions && id < |repo.Slice(e).rows|
      requires repo.Slice(e).rows[id].name == activityName && repo.Slice(e).rows[id].attempt == attempt
      modifies repo
      ensures Did(e, Commit(Commit(old(repo.Slice(e)), Tx.FailActivity(id)).t,
                            Tx.ScheduleNextActivity(activityName, attempt + 1, Tier(attempt + 1))), ok)
    {
      hide ExecutionRepo.Valid, ExecutionRepo.View, Put, Launch, NewMessages, Tier;
      ghost var v, t := repo.View(), repo.Slice(e);
      repo.FailActivity(e, id, ActivityFailed(activityName));
      ghost var t1 := Commit(t, Tx.FailActivity(id)).t;
      ghost var t2 := Commit(t1, Tx.ScheduleNextActivity(activityName, attempt + 1, Tier(attempt + 1))).t;
      PutAgain(v, e, t1, t2);
      SameOutbox(t, t1, t2);
      ok := ScheduleRetry(e, activityName, attempt);
    }

    method FailAndTurnBack(id: nat, e: string, wf: Workflow, before: ExecutionStatus, activityName: string)
      returns (ok: bool)
      requires Valid() && e in repo.executions && id < |repo.Slice(e).rows|
      requires repo.Slice(e).rows[id].name == activityName
      modifies repo
      ensures var t1 := Commit(old(repo.Slice(e)), Tx.DeadLetterActivity(id)).t;
              Did(e, Commit(t1, CompensateOrFail(wf, before, t1.rows, activityName)), ok)
    {
      hide ExecutionRepo.Valid, ExecutionRepo.View, Put, Launch, NewMessages, CompensateOrFail;
      ghost var v, t := repo.View(), repo.Slice(e);
      repo.DeadLetterActivity(e, id, activityName, ActivityFailed(activityName));
      ghost var t1 := Commit(t, Tx.DeadLetterActivity(id)).t;
      ghost var t2 := Commit(t1, CompensateOrFail(wf, before, t1.rows, activityName)).t;
      PutAgain(v, e, t1, t2);
      DeadLettersAddUp(t, id, CompensateOrFail(wf, before, t1.rows, activityName));
      ok := TurnBackOrFail(e, wf, before, activityName);
    }

    /** The failure handler, once it has the lock. */
    method FailAndFollow(id: nat, e: string, activityName: string, nonRetryable: bool) returns (ok: bool)
      requires Valid() && e in repo.executions
      requires id < |repo.Slice(e).rows| ==> repo.Slice(e).rows[id].name == activityName
      modifies repo
      ensures Did(e, Handle(old(DefinitionOf(e)), old(repo.Slice(e)), ReportFailure(id, nonRetryable)), ok)
    {
      hide ExecutionRepo.Valid, ExecutionRepo.View, Handle, First, Commit, PolicyOf, CompensateOrFail, Tier;
      FailureFirst(DefinitionOf(e), repo.Slice(e), id, nonRetryable);
      FailureOutcome(DefinitionOf(e), repo.Slice(e), id, nonRetryable);
      PutNothing(repo.View(), e);
      var act := repo.GetActivityExecution(e, id);
      if act.None? {
        return false;
      }
      if act.value.status == RowFailed {
        return true;
      }
      var exec := repo.GetExecution(e);
      var wf := workflows[exec.value.workflowId];
      var wfAct := FindPolicy(wf, activityName);
      if wfAct.None? {
        return false;
      }
      var maxAttempts := 1;
      if wfAct.value.maxAttempts.Some? && wfAct.value.maxAttempts.value > 1 {
        maxAttempts := wfAct.value.maxAttempts.value;
      }
      if act.value.attempt < maxAttempts && !nonRetryable {
        ok := FailAndRetry(id, e, activityName, act.value.attempt);
      } else {
        ok := FailAndTurnBack(id, e, wf, exec.value.status, activityName);
      }
    }

    /** A result of success. The message names the row it is about. */
    method ReportActivitySuccess(id: nat, e: string, activityName: string) returns (ok: bool)
      requires Valid() && repo.lockKey(e) !in repo.locked
      requires e in repo.executions && id < |repo.Slice(e).rows| ==> repo.Slice(e).rows[id].name == activityName
      modifies repo
      ensures e in old(repo.executions) ==>
                Did(e, Handle(old(DefinitionOf(e)), old(repo.Slice(e)), ReportSuccess(id)), ok)
      ensures e !in old(repo.executions) ==> !ok && Unchanged()
    {
      hide ExecutionRepo.Valid, ExecutionRepo.View, Handle;
      repo.LockWorkflow(e);
      ok := false;
      if e in repo.executions {
        ok := CompleteAndFollow(id, e, activityName);
      }
      repo.UnlockWorkflow(e);
    }

    /** A result of failure, or a timeout. */
    method ReportActivityFailure(id: nat, e: string, activityName: string, nonRetryable: bool) returns (ok: bool)
      requires Valid() && repo.lockKey(e) !in repo.locked
      requires e in repo.executions && id < |repo.Slice(e).rows| ==> repo.Slice(e).rows[id].name == activityName
      modifies repo
      ensures e in old(repo.executions) ==>
                Did(e, Handle(old(DefinitionOf(e)), old(repo.Slice(e)), ReportFailure(id, nonRetryable)), ok)
      ensures e !in old(repo.executions) ==> !ok && Unchanged()
    {
      hide ExecutionRepo.Valid, ExecutionRepo.View, Handle;
      repo.LockWorkflow(e);
      ok := false;
      if e in repo.executions {
        ok := FailAndFollow(id, e, activityName, nonRetryable);
      }
      repo.UnlockWorkflow(e);
    }

    /** One result: handled, then acknowledged, requeued or discarded. */
    method HandleResult(d: Delivery) returns (verdict: Verdict)
      requires Valid() && repo.locked == {} && NamesItsRow(repo.View(), d)
      modifies repo
      ensures Valid() && repo.locked == {} && verdict == VerdictOn(workflows, old(repo.View()), d)
      ensures verdict == Discard <==> d.Malformed?
      ensures var v := old(repo.View());
              repo.View() == if Known(workflows, v, d) then Put(v, d.msg.exec, ReplyTo(workflows, v, d.msg).t) else v
    {
      hide ExecutionRepo.Valid, ExecutionRepo.View, Handle;
      if d.Malformed? {
        return Discard;
      }
      var res := d.msg;
      var ok: bool;
      if res.success {
        ok := ReportActivitySuccess(res.id, res.exec, res.name);
      } else {
        ok := ReportActivityFailure(res.id, res.exec, res.name, res.nonRetryable);
      }
      verdict := if ok then Ack else Requeue;
    }

    /** The consumer of results. */
    method StartResultConsumer(deliveries: seq<Delivery>) returns (verdicts: seq<Verdict>)
      requires Valid() && repo.locked == {}
      requires forall i | 0 <= i < |deliveries| ::
                 NamesItsRow(Consume(workflows, repo.View(), deliveries[..i]), deliveries[i])
      modifies repo
      ensures Valid() && repo.View() == Consume(workflows, old(repo.View()), deliveries)
      ensures |verdicts| == |deliveries|
      ensures forall i | 0 <= i < |deliveries| ::
                && (verdicts[i] == Discard <==> deliveries[i].Malformed?)
                && verdicts[i] ==
                       VerdictOn(workflows, Consume(workflows, old(repo.View()), deliveries[..i]), deliveries[i])
    {
      hide ExecutionRepo.Valid, ExecutionRepo.View, Consume, VerdictOn, Known, NamesItsRow, Put;
      verdicts := [];
      ConsumeNothing(workflows, repo.View());
      for i := 0 to |deliveries|
        invariant Valid() && repo.locked == {} && |verdicts| == i
        invariant repo.View() == Consume(workflows, old(repo.View()), deliveries[..i])
        invariant forall j | 0 <= j < i ::
                    && (verdicts[j] == Discard <==> deliveries[j].Malformed?)
                    && verdicts[j] ==
                           VerdictOn(workflows, Consume(workflows, old(repo.View()), deliveries[..j]), deliveries[j])
      {
        ConsumeStep(workflows, old(repo.View()), deliveries, i);
        var verdict := HandleResult(deliveries[i]);
        verdicts := verdicts + [verdict];
      }
      assert deliveries[..|deliveries|] == deliveries;
    }

    /** The first dead-lettered row of a listing that is no activity of the definition. */
    method FindFailedCompensation(wf: Workflow, acts: seq<ActivityRow>) returns (failedComp: Option<ActivityRow>)
      ensures failedComp == FirstFailedCompensation(wf, acts)
    {
      failedComp := None;
      var i := 0;
      while i < |acts|
        invariant 0 <= i <= |acts| && failedComp.None?
        invariant FirstFailedCompensation(wf, acts) == FirstFailedCompensation(wf, acts[i..])
      {
        var act := acts[i];
        assert acts[i..][1..] == acts[i + 1..];
        if act.deadLettered {
          var isNormal := IsNormal(wf, act.name);
          if !isNormal {
            failedComp := Some(act);
            break;
          }
        }
        i := i + 1;
      }
    }

    /** The compensation retry, once it has the lock; `acts` is the listing it saw. */
    method RetryFailedCompensation(e: string) returns (ok: bool, ghost acts: seq<ActivityRow>)
      requires Valid() && e in repo.executions
      modifies repo
      ensures IsListing(old(repo.Slice(e)).rows, acts)
      ensures Did(e, Handle(old(DefinitionOf(e)), old(repo.Slice(e)), Call.RetryCompensation(acts)), ok)
    {
      hide ExecutionRepo.Valid, ExecutionRepo.View, Handle, Commit, Launch, IsListing, FirstFailedCompensation;
      ghost var wf0, t := DefinitionOf(e), repo.Slice(e);
      PutNothing(repo.View(), e);
      var exec := repo.GetExecution(e);
      var listed := repo.ListActivityExecutions(e);
      acts := listed;
      CompensationRetry(wf0, t, acts);
      if exec.value.status != Failed {
        return false, acts;
      }
      var wf := workflows[exec.value.workflowId];
      var failedComp := FindFailedCompensation(wf, listed);
      if failedComp.None? {
        return false, acts;
      }
      var name, nextAttempt: Attempt := failedComp.value.name, failedComp.value.attempt + 1;
      ok := repo.StartCompensating(e, name, nextAttempt, CompensationStarted(name, Some(nextAttempt), true));
    }

    method RetryCompensation(e: string) returns (ok: bool, ghost acts: seq<ActivityRow>)
      requires Valid() && repo.lockKey(e) !in repo.locked
      modifies repo
      ensures e in old(repo.executions) ==>
                && IsListing(old(repo.Slice(e)).rows, acts)
                && Did(e, Handle(old(DefinitionOf(e)), old(repo.Slice(e)), Call.RetryCompensation(acts)), ok)
      ensures e !in old(repo.executions) ==> !ok && Unchanged()
    {
      hide ExecutionRepo.Valid, ExecutionRepo.View, Handle, IsListing;
      repo.LockWorkflow(e);
      ok, acts := false, [];
      if e in repo.executions {
        ok, acts := RetryFailedCompensation(e);
      }
      repo.UnlockWorkflow(e);
    }

    /**
     * The retry of a dead-lettered row, which takes no lock, and first looks for a definition under the execution's
     * id.
     */
    method RetryDeadLetteredActivity(id: nat, e: string) returns (ok: bool)
      requires Valid()
      modifies repo
      ensures e in old(repo.executions) ==>
                var wf := if e in old(workflows) then old(workflows[e]) else old(DefinitionOf(e));
                Did(e, Handle(wf, old(repo.Slice(e)), Call.RetryDeadLettered(id)), ok)
      ensures e !in old(repo.executions) ==> !ok && Unchanged()
    {
      hide ExecutionRepo.Valid, ExecutionRepo.View, Handle, Commit, Launch, IsForward;
      var act := repo.GetActivityExecution(e, id);
      if act.None? {
        if e in repo.executions {
          NoSuchRow(if e in workflows then workflows[e] else DefinitionOf(e), repo.Slice(e), id);
          PutNothing(repo.View(), e);
        }
        return false;
      }
      ghost var wf0, t := if e in workflows then workflows[e] else DefinitionOf(e), repo.Slice(e);
      PutNothing(repo.View(), e);
      DeadLetterRetry(wf0, t, id);
      if !act.value.deadLettered {
        return false;
      }
      var exec := repo.GetExecution(e);
      if exec.value.status == Compensated || exec.value.status == Cancelled || exec.value.status == Completed {
        return false;
      }
      var wf := if e in workflows then workflows[e] else workflows[exec.value.workflowId];
      var isNormal := IsNormal(wf, act.value.name);
      var isComp := !isNormal;
      var name, nextAttempt: Attempt := act.value.name, act.value.attempt + 1;
      var event := ActivityScheduled(name, Some(nextAttempt), true);
      var newStatus := Running;
      if isComp {
        event := CompensationStarted(name, Some(nextAttempt), true);
        newStatus := Compensating;
      }
      ok := repo.RetryActivity(e, newStatus, name, nextAttempt, event);
    }
  }

  lemma {:induction false} NoSuchRow(wf: Workflow, t: Tables, id: nat)
    requires id >= |t.rows|
    ensures Handle(wf, t, Call.RetryDeadLettered(id)) == Reply(t, false)
  {
  }

  lemma {:induction false} DeadLetterRetry(wf: Workflow, t: Tables, id: nat)
    requires id < |t.rows|
    ensures var r := t.rows[id];
            Handle(wf, t, Call.RetryDeadLettered(id)) ==
            if !r.deadLettered || t.status == Compensated || t.status == Cancelled || t.status == Completed then
              Reply(t, false)
            else if IsForward(wf, r.name) then
              Launch(t, Running, r.name, r.attempt + 1, ActivityScheduled(r.name, Some(r.attempt + 1), true), 0)
            else
              Launch(t, Compensating, r.name, r.attempt + 1, CompensationStarted(r.name, Some(r.attempt + 1), true), 0)
  {
  }

  lemma {:induction false} CompensationRetry(wf: Workflow, t: Tables, acts: seq<ActivityRow>)
    ensures Handle(wf, t, Call.RetryCompensation(acts)) ==
            if t.status != Failed || FirstFailedCompensation(wf, acts).None? then Reply(t, false)
            else
              var r := FirstFailedCompensation(wf, acts).value;
              Launch(t, Compensating, r.name, r.attempt + 1, CompensationStarted(r.name, Some(r.attempt + 1), true), 0)
  {
  }

  lemma {:induction false} SameOutbox(t: Tables, t1: Tables, t2: Tables)
    requires t1.outbox == t.outbox
    ensures NewMessages(t, t1) == [] && NewMessages(t, t2) == NewMessages(t1, t2)
  {
  }

  lemma {:induction false} DeadLettersAddUp(t: Tables, id: nat, tx: Tx)
    requires id < |t.rows| && !IsSettle(tx)
    ensures var t1 := Commit(t, Tx.DeadLetterActivity(id)).t;
            var t2 := Commit(t1, tx).t;
            [Message(t, id, t.rows[id].name, t.rows[id].key, DLQ_TIER)] + NewMessages(t1, t2) == NewMessages(t, t2)
  {
  }

  /** The failure handler's two transactions. */
  lemma {:induction false} FailureOutcome(wf: Workflow, t: Tables, id: nat, nonRetryable: bool)
    ensures id < |t.rows| && t.rows[id].status != RowFailed && PolicyOf(wf, t.rows[id].name).Some? ==>
              var r := t.rows[id];
              Handle(wf, t, ReportFailure(id, nonRetryable)) ==
              if RetriesLeft(wf, r, nonRetryable) then
                Commit(Commit(t, Tx.FailActivity(id)).t,
                    Tx.ScheduleNextActivity(r.name, r.attempt + 1, Tier(r.attempt + 1)))
              else
                var t1 := Commit(t, Tx.DeadLetterActivity(id)).t;
                Commit(t1, CompensateOrFail(wf, t.status, t1.rows, r.name))
  {
  }
}
