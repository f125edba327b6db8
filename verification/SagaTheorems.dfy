/** What the refinement means for the tables of an execution, over whole runs. */
module SagaTheorems {
  import opened Models
  import opened Compensation
  import opened Tables
  import opened Adversary
  import opened Saga
  import opened Refinement

  /** A state some run of the engine reaches. */
  ghost predicate Reached(wf: Workflow, o: Outcomes, t: Tables) {
    Refines(wf, t) && Agrees(t, o)
  }

  ghost predicate OnlyDeliveries(actions: seq<Action>) {
    forall a | a in actions :: a.Deliver?
  }

  lemma {:induction false} DeliveriesAreAdmissible(wf: Workflow, t: Tables, o: Outcomes, actions: seq<Action>)
    requires OnlyDeliveries(actions)
    ensures AllAdmissible(wf, t, o, actions)
  {
    if actions != [] {
      assert forall a | a in actions[..|actions| - 1] :: a in actions;
      DeliveriesAreAdmissible(wf, t, o, actions[..|actions| - 1]);
    }
  }

  /******* Forward prefix *******/

  lemma {:induction false} SettledOnlyMatters(wf: Workflow, init: seq<ActivityRow>, r: ActivityRow)
    requires r.status == RowPending
    ensures CompletedNames(wf, init + [r]) == CompletedNames(wf, init)
    ensures CompletedComps(wf, init + [r]) == CompletedComps(wf, init)
  {
  }

  lemma {:induction false} PrefixAt(wf: Workflow, t: Tables)
    requires Sensible(wf) && Refines(wf, t)
    ensures Done(wf, State(wf, t)) <= |wf|
    ensures CompletedNames(wf, t.rows) == ForwardNames(wf, Done(wf, State(wf, t)))
  {
    if Active(State(wf, t)) {
      var init := Init(t.rows);
      assert t.rows == init + [Last(t.rows)];
      LedgerForward(wf, init);
      ResumeIsValid(wf, Replay(wf, init).value);
      SettledOnlyMatters(wf, init, Last(t.rows));
    } else {
      LedgerForward(wf, t.rows);
    }
  }

  /**
   * The completed forward rows, in completion order, are exactly the first activities of the definition, one
   * each; the awaited row is the next one; and a completed execution has completed them all.
   */
  lemma {:induction false} ForwardPrefix(wf: Workflow, exec: string, o: Outcomes, actions: seq<Action>)
    requires Definition(wf) && AllAdmissible(wf, Create(exec, wf), o, actions)
    ensures var t := Run(wf, Create(exec, wf), o, actions);
            && Refines(wf, t) && CompletedInOrder(t.rows)
            && var k := Done(wf, State(wf, t));
               && k <= |wf| && CompletedNames(wf, t.rows) == ForwardNames(wf, k)
               && (t.status == Running ==> k < |wf| && t.current == Last(t.rows).name == wf[k].name)
               && (t.status == Completed ==> k == |wf|)
  {
    RunRefines(wf, exec, o, actions);
    PrefixAt(wf, Run(wf, Create(exec, wf), o, actions));
  }

  /******* Pending rows and ends *******/

  predicate IsEnd(status: ExecutionStatus) {
    status == Completed || status == Compensated || status == Failed
  }

  /** An execution is running or compensating exactly when it has a pending row, its last; else it has ended. */
  lemma {:induction false} PendingRows(wf: Workflow, exec: string, o: Outcomes, actions: seq<Action>)
    requires Definition(wf) && AllAdmissible(wf, Create(exec, wf), o, actions)
    ensures var t := Run(wf, Create(exec, wf), o, actions);
            && (t.status == Running || t.status == Compensating <==>
                  exists i :: 0 <= i < |t.rows| && t.rows[i].status == RowPending)
            && (forall i | 0 <= i < |t.rows| && t.rows[i].status == RowPending :: i == |t.rows| - 1)
            && (IsEnd(t.status) <==> !(t.status == Running || t.status == Compensating))
  {
    RunRefines(wf, exec, o, actions);
    var t := Run(wf, Create(exec, wf), o, actions);
    forall i | 0 <= i < |t.rows| ensures Settled(t.rows[i]) <==> !(Active(State(wf, t)) && i == |t.rows| - 1) {
      SettledBeforeLast(wf, t, i);
    }
    assert Active(State(wf, t)) ==> t.rows[|t.rows| - 1].status == RowPending;
  }

  /** Although no handler looks for a final status, no further delivery changes an ended execution. */
  lemma {:induction false} EndsAbsorb(wf: Workflow, t: Tables, o: Outcomes, actions: seq<Action>)
    requires Definition(wf) && Reached(wf, o, t) && IsEnd(t.status)
    requires OnlyDeliveries(actions)
    ensures Run(wf, t, o, actions) == t
  {
    if actions != [] {
      var init, a := actions[..|actions| - 1], actions[|actions| - 1];
      assert forall x | x in init :: x in actions;
      EndsAbsorb(wf, t, o, init);
      UnawaitedIsIgnored(wf, t, o, a.id);
    }
  }

  /******* Order and completeness of compensation *******/

  /** The compensations started, by their first attempts, in order. */
  function StartedComps(wf: Workflow, rows: seq<ActivityRow>): seq<string> {
    if rows == [] then []
    else
      var r := rows[|rows| - 1];
      StartedComps(wf, rows[..|rows| - 1]) + if !IsForward(wf, r.name) && r.attempt == 1 then [r.name] else []
  }

  /** The compensations completed, in order. */
  function UndoneComps(wf: Workflow, rows: seq<ActivityRow>): seq<string> {
    if rows == [] then []
    else
      var r := rows[|rows| - 1];
      UndoneComps(wf, rows[..|rows| - 1]) + if !IsForward(wf, r.name) && r.status == RowCompleted then [r.name] else []
  }

  /** Compensations with a row, when the next row has not been written. */
  lemma {:induction false} LedgerStarted(wf: Workflow, rows: seq<ActivityRow>)
    requires WellFormed(wf) && Replay(wf, rows).Some?
    ensures var s := Replay(wf, rows).value;
            Tried(wf, s) <= |Plan(wf, s)| && StartedComps(wf, rows) == Plan(wf, s)[..Tried(wf, s)]
  {
    if rows != [] {
      var s := LastStep(wf, rows);
      var s' := Replay(wf, rows).value;
      LedgerStarted(wf, rows[..|rows| - 1]);
      CountersMove(wf, s, rows[|rows| - 1], s');
      PrefixMoves(wf, s, s', Tried(wf, s), Tried(wf, s'));
    }
  }

  lemma {:induction false} PrefixMoves(wf: Workflow, s: Saga, s': Saga, n: nat, n': nat)
    requires Valid(wf, s) && Valid(wf, s') && n <= |Plan(wf, s)| && n' <= |Plan(wf, s')|
    requires n' == n == 0 || (Done(wf, s') == Done(wf, s) && n <= n' <= n + 1)
    ensures Plan(wf, s')[..n'] == Plan(wf, s)[..n] + if n' == n then [] else [Plan(wf, s')[n]]
  {
  }

  lemma {:induction false} LedgerUndone(wf: Workflow, rows: seq<ActivityRow>)
    requires WellFormed(wf) && Replay(wf, rows).Some?
    ensures var s := Replay(wf, rows).value;
            Undid(wf, s) <= |Plan(wf, s)| && UndoneComps(wf, rows) == Plan(wf, s)[..Undid(wf, s)]
  {
    if rows != [] {
      var s := LastStep(wf, rows);
      var s' := Replay(wf, rows).value;
      LedgerUndone(wf, rows[..|rows| - 1]);
      CountersMove(wf, s, rows[|rows| - 1], s');
      PrefixMoves(wf, s, s', Undid(wf, s), Undid(wf, s'));
    }
  }

  /** Compensations with a row, counting the pending one. */
  ghost function Launched(wf: Workflow, s: Saga): nat
    requires Valid(wf, s)
  {
    if s.Undo? then s.j + 1 else Tried(wf, s)
  }

  lemma {:induction false} OrderAt(wf: Workflow, t: Tables)
    requires Sensible(wf) && Refines(wf, t)
    ensures var s := State(wf, t);
            && Undid(wf, s) <= Launched(wf, s) <= |Plan(wf, s)|
            && StartedComps(wf, t.rows) == Plan(wf, s)[..Launched(wf, s)]
            && UndoneComps(wf, t.rows) == Plan(wf, s)[..Undid(wf, s)]
            && (s.Undo? ==> t.current == Plan(wf, s)[s.j])
  {
    var s := State(wf, t);
    if Active(s) {
      PendingOrder(wf, t);
    } else {
      LedgerStarted(wf, t.rows);
      LedgerUndone(wf, t.rows);
    }
  }

  lemma {:induction false} PrefixesOf(plan: seq<string>, n: nat, m: nat)
    requires n <= m <= |plan|
    ensures plan[..m] <= plan && plan[..n] <= plan[..m] && plan[..|plan|] == plan
    ensures NoRepeats(plan) ==> NoRepeats(plan[..n])
    ensures m == n + 1 ==> plan[..m] == plan[..n] + [plan[n]]
  {
  }

  lemma {:induction false} PendingOrder(wf: Workflow, t: Tables)
    requires Sensible(wf) && Refines(wf, t) && Active(State(wf, t))
    ensures var s := State(wf, t);
            && Launched(wf, s) <= |Plan(wf, s)| && Undid(wf, s) <= |Plan(wf, s)|
            && StartedComps(wf, t.rows) == Plan(wf, s)[..Launched(wf, s)]
            && UndoneComps(wf, t.rows) == Plan(wf, s)[..Undid(wf, s)]
  {
    var s, init := State(wf, t), Init(t.rows);
    ResumeIsValid(wf, Replay(wf, init).value);
    LedgerStarted(wf, init);
    LedgerUndone(wf, init);
    DoingKind(wf, s);
    PendingRowCounts(wf, t.rows, s);
    if s.Undo? {
      PrefixesOf(Plan(wf, s), s.j, s.j + 1);
    }
  }

  lemma {:induction false} PendingRowCounts(wf: Workflow, rows: seq<ActivityRow>, s: Saga)
    requires rows != [] && Last(rows).status == RowPending && IsAttempt(wf, s, Last(rows))
    requires IsForward(wf, Doing(wf, s)) <==> s.Forward?
    ensures UndoneComps(wf, rows) == UndoneComps(wf, Init(rows))
    ensures StartedComps(wf, rows) ==
            StartedComps(wf, Init(rows)) + if s.Undo? && s.a == 1 then [Doing(wf, s)] else []
  {
  }

  /**
   * Compensations start, and complete, in exactly the order of the undo plan of the completed activities: in
   * reverse, without empty ones and later repeats. None completes twice, and a compensated execution has
   * completed every one of them, although the next-step function also skips failed ones.
   */
  lemma {:induction false} CompensationOrder(wf: Workflow, exec: string, o: Outcomes, actions: seq<Action>)
    requires Definition(wf) && AllAdmissible(wf, Create(exec, wf), o, actions)
    ensures var t := Run(wf, Create(exec, wf), o, actions);
            && Refines(wf, t)
            && var plan := Plan(wf, State(wf, t));
               && StartedComps(wf, t.rows) <= plan
               && UndoneComps(wf, t.rows) <= StartedComps(wf, t.rows)
               && NoRepeats(UndoneComps(wf, t.rows))
               && (t.status == Compensated ==> UndoneComps(wf, t.rows) == plan)
               && (t.status == Compensating ==> StartedComps(wf, t.rows) == UndoneComps(wf, t.rows) + [t.current])
  {
    RunRefines(wf, exec, o, actions);
    var t := Run(wf, Create(exec, wf), o, actions);
    OrderAt(wf, t);
    UndoPlanHasNoRepeats(wf, Done(wf, State(wf, t)));
    PrefixesOf(Plan(wf, State(wf, t)), Undid(wf, State(wf, t)), Launched(wf, State(wf, t)));
  }

  /******* Repeated deliveries *******/

  /** Every delivery is for a row that exists when it arrives. */
  ghost predicate Timely(wf: Workflow, t: Tables, o: Outcomes, actions: seq<Action>) {
    actions != [] ==>
      && Timely(wf, t, o, actions[..|actions| - 1])
      && var a := actions[|actions| - 1];
         a.Deliver? ==> a.id < |Run(wf, t, o, actions[..|actions| - 1]).rows|
  }

  /** Drops every delivery of an id that was delivered before. */
  function DropRepeatedDeliveries(actions: seq<Action>): seq<Action> {
    if actions == [] then []
    else
      var init, a := actions[..|actions| - 1], actions[|actions| - 1];
      if a.Deliver? && a in init then DropRepeatedDeliveries(init) else DropRepeatedDeliveries(init) + [a]
  }

  lemma {:induction false} DeliveredIsSettled(wf: Workflow, exec: string, o: Outcomes, actions: seq<Action>, id: nat)
    requires Definition(wf) && AllAdmissible(wf, Create(exec, wf), o, actions)
    requires Timely(wf, Create(exec, wf), o, actions) && Deliver(id) in actions
    ensures var t := Run(wf, Create(exec, wf), o, actions); id < |t.rows| && Settled(t.rows[id])
  {
    var init, a := actions[..|actions| - 1], actions[|actions| - 1];
    var t := Run(wf, Create(exec, wf), o, init);
    RunRefines(wf, exec, o, init);
    if a.Deliver? { DeliveryRefines(wf, t, o, a.id); }
    DeliverySettles(wf, t, o, a);
    if a != Deliver(id) {
      assert Deliver(id) in init;
      DeliveredIsSettled(wf, exec, o, init, id);
      assert HasStatus(Act(wf, t, o, a).rows, id, t.rows[id].status);
    }
  }

  /**
   * Repeats do not matter: rows, status, events and outbox are those of the run without repeated deliveries,
   * wherever the repeats stand and however late they come.
   */
  lemma {:induction false} RepeatsDoNotMatter(wf: Workflow, exec: string, o: Outcomes, actions: seq<Action>)
    requires Definition(wf) && AllAdmissible(wf, Create(exec, wf), o, actions)
    requires Timely(wf, Create(exec, wf), o, actions)
    ensures Run(wf, Create(exec, wf), o, actions) == Run(wf, Create(exec, wf), o, DropRepeatedDeliveries(actions))
  {
    if actions != [] {
      var init, a := actions[..|actions| - 1], actions[|actions| - 1];
      RepeatsDoNotMatter(wf, exec, o, init);
      if a.Deliver? && a in init {
        RunRefines(wf, exec, o, init);
        DeliveredIsSettled(wf, exec, o, init, a.id);
        var t := Run(wf, Create(exec, wf), o, init);
        SettledBeforeLast(wf, t, a.id);
        UnawaitedIsIgnored(wf, t, o, a.id);
      } else {
        var kept := DropRepeatedDeliveries(init);
        assert (kept + [a])[..|kept|] == kept;
      }
    }
  }

  /******* Termination *******/

  /** Adds up a cost over a list of names. */
  function Sum(cost: string -> nat, names: seq<string>): nat {
    if names == [] then 0 else cost(names[0]) + Sum(cost, names[1..])
  }

  function Limits(wf: Workflow): string -> nat {
    name => Limit(wf, name)
  }

  /** The attempt limits of all activities and of all distinct compensations, added up. */
  function Budget(wf: Workflow): nat {
    Sum(Limits(wf), ForwardNames(wf, |wf|)) + Sum(Limits(wf), UndoPlan(wf, |wf|))
  }

  /** Automatic retries that an attempt leaves; none, when an operator has gone beyond the limit. */
  function RetriesAfter(wf: Workflow, name: string, a: nat): nat {
    if a < Limit(wf, name) then Limit(wf, name) - a else 0
  }

  /** Rows that can still be written after the attempt under way, if no operator asks for more. */
  ghost function RowsLeft(wf: Workflow, s: Saga): nat
    requires Valid(wf, s)
  {
    match s
    case Forward(k, a) =>
      RetriesAfter(wf, wf[k].name, a) +
      Sum(Limits(wf), ForwardNames(wf, |wf|)[k + 1..]) + Sum(Limits(wf), UndoPlan(wf, |wf|))
    case Undo(k, j, a) => RetriesAfter(wf, UndoPlan(wf, k)[j], a) + Sum(Limits(wf), UndoPlan(wf, k)[j + 1..])
    case _ => 0
  }

  lemma {:induction false} WithoutCosts(cost: string -> nat, s: seq<string>, c: string)
    requires NoRepeats(s)
    ensures Sum(cost, Without(s, c)) + (if c in s then cost(c) else 0) == Sum(cost, s)
  {
    if s != [] {
      assert NoRepeats(s[1..]);
      WithoutCosts(cost, s[1..], c);
      var rest := Without(s[1..], c);
      if s[0] == c {
        assert c !in s[1..];
        assert Without(s, c) == rest;
      } else {
        assert Without(s, c) == [s[0]] + rest && ([s[0]] + rest)[1..] == rest;
        assert c in s <==> c in s[1..];
      }
    }
  }

  /** Completing more activities can only lengthen what may have to be undone. */
  lemma {:induction false} PlanCostsGrow(cost: string -> nat, wf: Workflow, k: nat, n: nat)
    requires k <= n <= |wf|
    ensures Sum(cost, UndoPlan(wf, k)) <= Sum(cost, UndoPlan(wf, n))
  {
    hide Sum, UndoPlan, NoRepeats;
    if k < n {
      PlanCostsGrow(cost, wf, k, n - 1);
      var c, plan := wf[n - 1].compensation, UndoPlan(wf, n - 1);
      UndoPlanStep(wf, n);
      UndoPlanHasNoRepeats(wf, n - 1);
      ConsCosts(cost, c, plan);
    }
  }

  lemma {:induction false} ConsCosts(cost: string -> nat, c: string, plan: seq<string>)
    requires NoRepeats(plan)
    ensures Sum(cost, plan) <= Sum(cost, [c] + Without(plan, c))
  {
    WithoutCosts(cost, plan, c);
    var rest := Without(plan, c);
    assert ([c] + rest)[1..] == rest;
  }

  lemma {:induction false} SumTail(cost: string -> nat, names: seq<string>, i: nat)
    requires i < |names|
    ensures Sum(cost, names[i..]) == cost(names[i]) + Sum(cost, names[i + 1..])
  {
  }

  lemma {:induction false} ForwardNameAt(wf: Workflow, n: nat, i: nat)
    requires i < n <= |wf|
    ensures ForwardNames(wf, n)[i] == wf[i].name
  {
    if n > 1 { ForwardNameAt(wf, n - 1, if i < n - 1 then i else 0); }
  }

  lemma {:induction false} HasLimit(wf: Workflow, s: Saga)
    requires WellFormed(wf) && Valid(wf, s) && Active(s)
    ensures 1 <= Limit(wf, Doing(wf, s))
  {
    DoingKind(wf, s);
  }

  lemma {:induction false} ForwardUsesBudget(wf: Workflow, s: Saga, s': Saga)
    requires WellFormed(wf) && Valid(wf, s) && s.Forward?
    requires s' == OnSuccess(wf, s) || s' == OnGivingUp(wf, s)
    ensures Active(s') ==> RowsLeft(wf, s') < RowsLeft(wf, s)
  {
    hide UndoPlan, Limit;
    if s'.Forward? {
      HasLimit(wf, s');
      ForwardNameAt(wf, |wf|, s'.k);
      SumTail(Limits(wf), ForwardNames(wf, |wf|), s'.k);
    } else if s'.Undo? {
      HasLimit(wf, s');
      SumTail(Limits(wf), UndoPlan(wf, s.k), 0);
      PlanCostsGrow(Limits(wf), wf, s.k, |wf|);
      assert UndoPlan(wf, s.k)[0..] == UndoPlan(wf, s.k);
    }
  }

  lemma {:induction false} UndoUsesBudget(wf: Workflow, s: Saga)
    requires WellFormed(wf) && Valid(wf, s) && s.Undo?
    ensures Active(OnSuccess(wf, s)) ==> RowsLeft(wf, OnSuccess(wf, s)) < RowsLeft(wf, s)
  {
    hide UndoPlan, Limit;
    var s' := OnSuccess(wf, s);
    if s'.Undo? {
      HasLimit(wf, s');
      SumTail(Limits(wf), UndoPlan(wf, s.k), s'.j);
    }
  }

  /** Every outcome uses up rows: the rest shrinks strictly while the execution is active. */
  lemma {:induction false} OutcomeUsesBudget(wf: Workflow, s: Saga, o: Outcome)
    requires WellFormed(wf) && Valid(wf, s) && Active(s)
    ensures var s' := Ideal(wf, s, o); Valid(wf, s') && (Active(s') ==> RowsLeft(wf, s') < RowsLeft(wf, s))
  {
    hide UndoPlan, Sum;
    var s' := Ideal(wf, s, o);
    if s' == OnRetry(s) {
    } else if s.Forward? {
      ForwardUsesBudget(wf, s, s');
    } else if o.Succeeds? {
      UndoUsesBudget(wf, s);
    }
  }

  /** Rows written and rows left never exceed the budget. */
  ghost predicate WithinBudget(wf: Workflow, t: Tables) {
    Refines(wf, t) && |t.rows| + RowsLeft(wf, State(wf, t)) <= Budget(wf)
  }

  lemma {:induction false} HandleAddsOneRow(wf: Workflow, t: Tables, call: Call)
    ensures |t.rows| <= |Handle(wf, t, call).t.rows|
    ensures IsReport(call) ==> |Handle(wf, t, call).t.rows| <= |t.rows| + 1
  {
    var d := First(wf, t, call);
    if d.Do? {
      var r := Commit(t, d.tx);
      CommitAddsRows(t, d.tx);
      var d2 := Second(wf, t.status, r.t, call);
      if r.ok && d2.Do? { CommitAddsRows(r.t, d2.tx); }
    }
  }

  lemma {:induction false} CommitAddsRows(t: Tables, tx: Tx)
    requires InRange(t, tx)
    ensures |t.rows| <= |Commit(t, tx).t.rows| <= |t.rows| + 1
    ensures !IsLaunch(tx) ==> |Commit(t, tx).t.rows| == |t.rows|
  {
  }

  lemma {:induction false} DeliveryUsesBudget(wf: Workflow, t: Tables, o: Outcomes, id: nat)
    requires Definition(wf) && Reached(wf, o, t) && WithinBudget(wf, t)
    ensures WithinBudget(wf, Act(wf, t, o, Deliver(id)))
    ensures var t' := Act(wf, t, o, Deliver(id));
            if Awaited(wf, t, id) then
              Active(State(wf, t')) ==>
                  |t'.rows| == |t.rows| + 1 && RowsLeft(wf, State(wf, t')) < RowsLeft(wf, State(wf, t))
            else t' == t
  {
    var t' := Act(wf, t, o, Deliver(id));
    if Awaited(wf, t, id) {
      DeliveryRefines(wf, t, o, id);
      OutcomeUsesBudget(wf, State(wf, t), o(id));
      RowsAfter(wf, t, o, id);
    } else {
      UnawaitedIsIgnored(wf, t, o, id);
    }
  }

  /** The awaited result adds one row while the execution goes on, and none at its end. */
  lemma {:induction false} RowsAfter(wf: Workflow, t: Tables, o: Outcomes, id: nat)
    requires Definition(wf) && Reached(wf, o, t) && Awaited(wf, t, id)
    ensures var t' := Act(wf, t, o, Deliver(id));
            Refines(wf, t') && |t'.rows| == |t.rows| + if Active(State(wf, t')) then 1 else 0
  {
    DeliveryRefines(wf, t, o, id);
    ReportAddsRow(wf, t, CallOf(o, Deliver(id)));
  }

  lemma {:induction false} ReportAddsRow(wf: Workflow, t: Tables, call: Call)
    requires Refines(wf, t) && IsReport(call) && call.id < |t.rows|
    requires Handle(wf, t, call).ok && Refines(wf, Handle(wf, t, call).t)
    requires call.id == |t.rows| - 1
    ensures var t' := Handle(wf, t, call).t; |t'.rows| == |t.rows| + if Active(State(wf, t')) then 1 else 0
  {
    var t' := Handle(wf, t, call).t;
    HandleAddsOneRow(wf, t, call);
    HandleKeepsOthers(wf, t, call);
    if Active(State(wf, t')) {
      SettledBeforeLast(wf, t', call.id);
    } else {
      EndAddsNoRow(wf, t, t', call.id);
    }
  }

  lemma {:induction false} EndAddsNoRow(wf: Workflow, t: Tables, t': Tables, id: nat)
    requires Refines(wf, t') && !Active(State(wf, t')) && |t.rows| <= |t'.rows| && OthersKept(t.rows, t'.rows, id)
    ensures |t'.rows| == |t.rows|
  {
  }

  lemma {:induction false} StartWithinBudget(wf: Workflow, exec: string)
    requires Definition(wf)
    ensures WithinBudget(wf, Create(exec, wf)) && Rank(wf, Create(exec, wf)) <= Budget(wf)
  {
    hide UndoPlan, Limit;
    CreateRefines(exec, wf);
    HasLimit(wf, Forward(0, 1));
    ForwardNameAt(wf, |wf|, 0);
    SumTail(Limits(wf), ForwardNames(wf, |wf|), 0);
    assert ForwardNames(wf, |wf|)[0..] == ForwardNames(wf, |wf|);
  }

  /** How many deliveries of a run found the engine waiting for them. */
  ghost function Effective(wf: Workflow, t: Tables, o: Outcomes, actions: seq<Action>): nat {
    if actions == [] then 0
    else
      var init := actions[..|actions| - 1];
      Effective(wf, t, o, init) + if Run(wf, t, o, actions) == Run(wf, t, o, init) then 0 else 1
  }

  /**
   * Bounded runs: whatever is delivered, and however often, an execution writes at most as many rows as the
   * attempt limits of its activities and of its distinct compensations add up to, and at most that many
   * deliveries change anything.
   */
  lemma {:induction false} RunsAreBounded(wf: Workflow, exec: string, o: Outcomes, actions: seq<Action>)
    requires Definition(wf) && OnlyDeliveries(actions)
    ensures var t := Run(wf, Create(exec, wf), o, actions);
            && Reached(wf, o, t) && WithinBudget(wf, t) && |t.rows| <= Budget(wf)
            && Effective(wf, Create(exec, wf), o, actions) + (if Active(State(wf, t)) then 1 else 0) <= |t.rows|
  {
    DeliveriesAreAdmissible(wf, Create(exec, wf), o, actions);
    RunRefines(wf, exec, o, actions);
    if actions == [] {
      StartWithinBudget(wf, exec);
    } else {
      var init, a := actions[..|actions| - 1], actions[|actions| - 1];
      assert forall x | x in init :: x in actions;
      RunsAreBounded(wf, exec, o, init);
      var t := Run(wf, Create(exec, wf), o, init);
      DeliveryUsesBudget(wf, t, o, a.id);
      if Awaited(wf, t, a.id) { RowsAfter(wf, t, o, a.id); }
    }
  }

  /** Delivers the result of the last row written. */
  function DeliverLast(wf: Workflow, o: Outcomes, t: Tables): Tables {
    if t.rows == [] then t else Act(wf, t, o, Deliver(|t.rows| - 1))
  }

  function Iterate<T>(step: T -> T, t: T, n: nat): T
    decreases n
  {
    if n == 0 then t else Iterate(step, step(t), n - 1)
  }

  /** A step from `x` keeps `good` and `over`, and lowers `rank` until it is over. */
  ghost predicate Progresses<T>(step: T -> T, good: T -> bool, over: T -> bool, rank: T -> int, x: T) {
    good(x) ==>
      && good(step(x)) && (over(x) ==> over(step(x)))
      && (!over(x) ==> 0 < rank(x) && rank(step(x)) < rank(x))
  }

  lemma {:induction false} IterationEnds<T(!new)>(step: T -> T, good: T -> bool, over: T -> bool, rank: T -> int,
      t: T, n: nat)
    requires good(t) && (over(t) || rank(t) <= n)
    requires forall x :: Progresses(step, good, over, rank, x)
    ensures good(Iterate(step, t, n)) && over(Iterate(step, t, n))
    decreases n
  {
    assert Progresses(step, good, over, rank, t);
    if n > 0 {
      IterationEnds(step, good, over, rank, step(t), n - 1);
    }
  }

  /** One more than the rows that can still be written, while there is anything to wait for. */
  ghost function Rank(wf: Workflow, t: Tables): int {
    if Refines(wf, t) && Active(State(wf, t)) then RowsLeft(wf, State(wf, t)) + 1 else 0
  }

  lemma {:induction false} LastDelivery(wf: Workflow, o: Outcomes, t: Tables)
    requires Definition(wf) && Reached(wf, o, t)
    ensures Reached(wf, o, DeliverLast(wf, o, t))
    ensures IsEnd(t.status) ==> DeliverLast(wf, o, t) == t
    ensures !IsEnd(t.status) ==> 0 < Rank(wf, t) && Rank(wf, DeliverLast(wf, o, t)) < Rank(wf, t)
  {
    hide Act, Rank, Refines, State, Agrees, RowsLeft;
    RefinesFacts(wf, t);
    var id := |t.rows| - 1;
    ActRefines(wf, t, o, Deliver(id));
    if Awaited(wf, t, id) {
      OutcomeUsesBudget(wf, State(wf, t), o(id));
      RankFalls(wf, t, Act(wf, t, o, Deliver(id)));
    }
  }

  lemma {:induction false} RankFalls(wf: Workflow, t: Tables, t': Tables)
    requires Refines(wf, t) && Refines(wf, t') && Active(State(wf, t))
    requires Active(State(wf, t')) ==> RowsLeft(wf, State(wf, t')) < RowsLeft(wf, State(wf, t))
    ensures 0 < Rank(wf, t) && Rank(wf, t') < Rank(wf, t)
  {
  }

  /**
   * Termination from any state, also after retries by hand: delivering the result of the row last written, over and
   * over, ends the execution within its rank, in COMPLETED, COMPENSATED or FAILED.
   */
  lemma {:induction false} EveryStateEnds(wf: Workflow, o: Outcomes, t: Tables, n: nat)
    requires Definition(wf) && Reached(wf, o, t) && Rank(wf, t) <= n
    ensures IsEnd(Iterate(t => DeliverLast(wf, o, t), t, n).status)
  {
    var step := t => DeliverLast(wf, o, t);
    var good := (t: Tables) => Reached(wf, o, t);
    var over := (t: Tables) => IsEnd(t.status);
    var rank := (t: Tables) => Rank(wf, t);
    forall t ensures Progresses(step, good, over, rank, t) {
      if good(t) { LastDelivery(wf, o, t); }
    }
    IterationEnds(step, good, over, rank, t, n);
  }

  /** So every execution ends within its budget. */
  lemma {:induction false} EveryExecutionEnds(wf: Workflow, exec: string, o: Outcomes)
    requires Definition(wf)
    ensures IsEnd(Iterate(t => DeliverLast(wf, o, t), Create(exec, wf), Budget(wf)).status)
  {
    CreateRefines(exec, wf);
    StartWithinBudget(wf, exec);
    EveryStateEnds(wf, o, Create(exec, wf), Budget(wf));
  }
}
