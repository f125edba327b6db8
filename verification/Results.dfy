/** From the handler of an activity to the engine: what a worker publishes, and what the engine makes of it. */
module Results {
  import opened Models
  import opened Tables
  import opened Saga
  import opened Refinement
  import Repository
  import Engine
  import Worker
  import Delivery

  /** What `Worker.Work` publishes when the handler of an activity's task has come back. */
  predicate IsResultOf(res: ResultMessage, task: Task, name: string, returned: Worker.Returned) {
    && res.exec == task.exec && res.id == task.activityId && res.name == name
    && (res.success <==> returned.Ok?)
    && (res.nonRetryable <==> returned == Worker.Error(true))
  }

  function OutcomeOf(returned: Worker.Returned): Outcome {
    match returned
    case Ok => Succeeds
    case Error(nonRetryable) => Fails(nonRetryable)
  }

  /** The engine reports a success exactly when the handler returned one, and its error as it was. */
  lemma {:induction false} EngineHearsWorker(res: ResultMessage, task: Task, name: string, returned: Worker.Returned)
    requires IsResultOf(res, task, name, returned)
    ensures Engine.CallFor(res) ==
            match returned
            case Ok => ReportSuccess(task.activityId)
            case Error(nonRetryable) => ReportFailure(task.activityId, nonRetryable)
    ensures Engine.CallFor(res) == Delivery.CallOfResult(task.activityId, OutcomeOf(returned))
  {
  }

  /**
   * So the saga moves as the handler says: what it returns for the task of the awaited row is what the machine does
   * next.
   */
  lemma {:induction false} WorkMovesSaga(workflows: map<string, Workflow>, v: map<string, Repository.Record>,
      res: ResultMessage, task: Task, name: string, returned: Worker.Returned)
    requires IsResultOf(res, task, name, returned) && task.exec in v && v[task.exec].workflowId in workflows
    requires var wf, t := workflows[v[task.exec].workflowId], v[task.exec].tables;
             Definition(wf) && Refines(wf, t) && Awaited(wf, t, task.activityId)
    ensures var wf, t := workflows[v[task.exec].workflowId], v[task.exec].tables;
            var r := Engine.ReplyTo(workflows, v, res);
            && r.ok && Refines(wf, r.t)
            && State(wf, r.t) == match returned
                                 case Ok => OnSuccess(wf, State(wf, t))
                                 case Error(nonRetryable) => OnFailure(wf, State(wf, t), nonRetryable)
  {
    hide Refines, State, Handle, OnSuccess, OnFailure, Definition, IsResultOf;
    var wf, t := workflows[v[task.exec].workflowId], v[task.exec].tables;
    EngineHearsWorker(res, task, name, returned);
    IsAbout(res, task, name, returned);
    match returned
    case Ok => SuccessStep(wf, t) by { DefinitionIsSensible(wf); }
    case Error(nonRetryable) => FailureMoves(wf, t, nonRetryable);
  }

  lemma {:induction false} IsAbout(res: ResultMessage, task: Task, name: string, returned: Worker.Returned)
    requires IsResultOf(res, task, name, returned)
    ensures res.exec == task.exec && res.id == task.activityId
  {
  }

  lemma {:induction false} DefinitionIsSensible(wf: Workflow)
    requires Definition(wf)
    ensures Sensible(wf)
  {
  }

  lemma {:induction false} FailureMoves(wf: Workflow, t: Tables, nonRetryable: bool)
    requires Definition(wf) && Refines(wf, t) && Active(State(wf, t))
    ensures StepsTo(wf, Handle(wf, t, ReportFailure(|t.rows| - 1, nonRetryable)),
                    OnFailure(wf, State(wf, t), nonRetryable))
  {
    hide Refines, State, Handle;
    LimitIsBacked(wf, Doing(wf, State(wf, t)));
    FailureStep(wf, t, nonRetryable);
  }
}
