/** The consumer of results, held against the saga: what it acknowledges, and where it leaves an execution. */
module Consumer {
  import opened Models
  import opened Tables
  import opened Refinement
  import opened SagaTheorems
  import opened Repository
  import opened Engine

  /** A result tells the outcome of its id. */
  predicate TellsOutcome(o: Outcomes, m: ResultMessage) {
    if m.success then o(m.id).Succeeds? else o(m.id) == Fails(m.nonRetryable)
  }

  predicate IsFor(d: Delivery, e: string) {
    d.Result? && d.msg.exec == e
  }

  ghost predicate TellOutcomes(o: Outcomes, ds: seq<Delivery>, e: string) {
    forall d | d in ds && IsFor(d, e) :: TellsOutcome(o, d.msg)
  }

  function ActionsFor(ds: seq<Delivery>, e: string): seq<Action> {
    if ds == [] then []
    else
      var d := ds[|ds| - 1];
      ActionsFor(ds[..|ds| - 1], e) + if IsFor(d, e) then [Deliver(d.msg.id)] else []
  }

  lemma {:induction false} OutcomeIsAction(wf: Workflow, t: Tables, o: Outcomes, m: ResultMessage)
    requires TellsOutcome(o, m)
    ensures Handle(wf, t, CallFor(m)) == Handle(wf, t, CallOf(o, Deliver(m.id)))
    ensures Handle(wf, t, CallFor(m)).t == Act(wf, t, o, Deliver(m.id))
  {
  }

  /** On each execution the consumer is the run of the engine on the results for it. */
  lemma {:induction false} ConsumingIsRunning(workflows: map<string, Workflow>, v: map<string, Record>,
      ds: seq<Delivery>, e: string, o: Outcomes)
    requires e in v && v[e].workflowId in workflows && TellOutcomes(o, ds, e)
    ensures var v' := Consume(workflows, v, ds);
            && e in v' && v'[e].workflowId == v[e].workflowId
            && v'[e].tables == Run(workflows[v[e].workflowId], v[e].tables, o, ActionsFor(ds, e))
    ensures OnlyDeliveries(ActionsFor(ds, e))
  {
    hide Handle, TellsOutcome, Act;
    if ds != [] {
      var init, d := ds[..|ds| - 1], ds[|ds| - 1];
      assert forall x | x in init :: x in ds;
      ConsumingIsRunning(workflows, v, init, e, o);
      if IsFor(d, e) {
        var wf, t := workflows[v[e].workflowId], Consume(workflows, v, init)[e].tables;
        OutcomeIsAction(wf, t, o, d.msg);
        RunSnoc(wf, v[e].tables, o, ActionsFor(init, e), Deliver(d.msg.id));
      } else {
        assert ActionsFor(ds, e) == ActionsFor(init, e);
      }
    }
  }

  /** The handler that a result asks for returns without an error; one for an unknown execution does not. */
  ghost predicate IsHandled(workflows: map<string, Workflow>, v: map<string, Record>, m: ResultMessage) {
    && m.exec in v && v[m.exec].workflowId in workflows
    && var call := if m.success then ReportSuccess(m.id) else ReportFailure(m.id, m.nonRetryable);
       Handle(workflows[v[m.exec].workflowId], v[m.exec].tables, call).ok
  }

  /**
   * The verdict on every delivery of every list: discarded if and only if its body does not parse, acknowledged if and
   * only if it parses and its handler returns without an error, requeued otherwise. What does not parse changes
   * nothing, nor does a result for an execution that does not exist; any other changes its own execution only, as its
   * handler does.
   */
  lemma {:induction false} VerdictsExactly(workflows: map<string, Workflow>, v: map<string, Record>,
      ds: seq<Delivery>, i: nat)
    requires i < |ds|
    ensures var before, after, d := Consume(workflows, v, ds[..i]), Consume(workflows, v, ds[..i + 1]), ds[i];
            var verdict := VerdictOn(workflows, before, d);
            && (verdict == Discard <==> d.Malformed?)
            && (verdict == Ack <==> d.Result? && IsHandled(workflows, before, d.msg))
            && (verdict == Requeue <==> d.Result? && !IsHandled(workflows, before, d.msg))
            && after.Keys == before.Keys
            && (d.Malformed? || d.msg.exec !in before ==> after == before)
            && (forall e | e in before && (d.Malformed? || d.msg.exec != e) :: after[e] == before[e])
            && (d.Result? && d.msg.exec in before && before[d.msg.exec].workflowId in workflows ==>
                  var wf, t := workflows[before[d.msg.exec].workflowId], before[d.msg.exec].tables;
                  after[d.msg.exec].tables ==
                  if d.msg.success then Handle(wf, t, ReportSuccess(d.msg.id)).t
                  else Handle(wf, t, ReportFailure(d.msg.id, d.msg.nonRetryable)).t)
  {
    hide Handle, Consume;
    ConsumeStep(workflows, v, ds, i);
  }

  lemma {:induction false} DeliveriesRefine(wf: Workflow, t: Tables, o: Outcomes, actions: seq<Action>)
    requires Definition(wf) && Reached(wf, o, t) && OnlyDeliveries(actions)
    ensures Reached(wf, o, Run(wf, t, o, actions))
  {
    hide Act, Refines, Agrees;
    if actions != [] {
      var init, a := actions[..|actions| - 1], actions[|actions| - 1];
      assert forall x | x in init :: x in actions;
      DeliveriesRefine(wf, t, o, init);
      ActRefines(wf, Run(wf, t, o, init), o, a);
    }
  }

  /**
   * Whatever results come in, in whatever order and however often, as long as each tells the outcome of its id: the
   * consumer keeps every execution in a state of its saga, acknowledges every result for a row that exists, and
   * requeues exactly those for rows that do not exist yet.
   */
  lemma {:induction false} ConsumerKeepsSagas(workflows: map<string, Workflow>, v: map<string, Record>,
      ds: seq<Delivery>, d: Delivery, e: string, o: Outcomes)
    requires e in v && v[e].workflowId in workflows && IsFor(d, e) && TellOutcomes(o, ds + [d], e)
    requires var wf := workflows[v[e].workflowId]; Definition(wf) && Reached(wf, o, v[e].tables)
    ensures var v' := Consume(workflows, v, ds);
            && e in v' && v'[e].workflowId == v[e].workflowId
            && Reached(workflows[v[e].workflowId], o, v'[e].tables)
            && VerdictOn(workflows, v', d) == if d.msg.id < |v'[e].tables.rows| then Ack else Requeue
  {
    hide Handle, Refines, Agrees, Definition, TellsOutcome, Run;
    assert forall x | x in ds :: x in ds + [d];
    assert d in ds + [d];
    ConsumingIsRunning(workflows, v, ds, e, o);
    var wf := workflows[v[e].workflowId];
    DeliveriesRefine(wf, v[e].tables, o, ActionsFor(ds, e));
    var t := Consume(workflows, v, ds)[e].tables;
    OutcomeIsAction(wf, t, o, d.msg);
    DeliveryReplies(wf, t, o, d.msg.id);
  }

  lemma {:induction false} DeliveryReplies(wf: Workflow, t: Tables, o: Outcomes, id: nat)
    requires Definition(wf) && Reached(wf, o, t)
    ensures Handle(wf, t, CallOf(o, Deliver(id))).ok <==> id < |t.rows|
  {
    hide Handle, Agrees, Definition;
    if id < |t.rows| {
      DeliveryRefines(wf, t, o, id);
    } else {
      UnawaitedIsIgnored(wf, t, o, id);
    }
  }
}
