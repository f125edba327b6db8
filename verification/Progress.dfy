/**
 * In a world where every id has one outcome and handlers finish what they begin: which activities must be registered
 * for nothing to be lost, and that every execution can then be driven to its end.
 */
module Progress {
  import opened Models
  import opened Compensation
  import opened Tables
  import opened Adversary
  import opened Saga
  import opened Refinement
  import opened SagaTheorems
  import opened Delivery

  function ActionOfRetry(call: Call): Action
    requires IsRetry(call)
  {
    match call
    case RetryCompensation(acts) => RetryComp(acts)
    case RetryDeadLettered(id) => RetryDead(id)
  }

  /**
   * Steps of such a world. Handlers may die before their first transaction or before their acknowledgement; operators
   * retry what may be retried.
   */
  ghost predicate Orderly(wf: Workflow, o: Outcomes, w: Network, s: Step) {
    && Possible(wf, w, s)
    && !s.CommitOther?
    && (s.Retry? ==> Admissible(wf, w.t, ActionOfRetry(s.call)))
    && (s.Report? ==> s.res == o(s.id))
    && (s.HandlerDies? ==> s.cut != Between)
    && (s.Timeout? ==> o(s.id) == Fails(false))
  }

  ghost predicate ResultsAgree(tokens: multiset<Token>, o: Outcomes) {
    forall k | k in tokens :: ResultAgrees(o, k)
  }

  predicate ResultAgrees(o: Outcomes, k: Token) {
    k.ResultQueued? || k.Handling? ==> k.res == o(k.id)
  }

  /** What holds of a network after orderly steps. */
  ghost predicate InOrder(wf: Workflow, o: Outcomes, w: Network) {
    Kept(w) && NothingLost(w) && Reached(wf, o, w.t) && ResultsAgree(w.tokens, o)
  }

  lemma {:induction false} TokenAgrees(o: Outcomes, tokens: multiset<Token>, k: Token)
    requires ResultsAgree(tokens, o) && k in tokens
    ensures ResultAgrees(o, k)
  {
  }

  lemma {:induction false} OneAgrees(o: Outcomes, k: Token, id: nat)
    requires ResultAgrees(o, k)
    ensures ResultsAgree(multiset{k}, o) && ResultsAgree(multiset{Reported(id), k}, o) && ResultsAgree(multiset{}, o)
  {
  }

  lemma {:induction false} TasksAgree(o: Outcomes, registered: set<string>, m: OutboxMessage)
    ensures ResultsAgree(Routed(registered, m), o)
  {
    RoutedByTier(registered, m);
  }

  /** Steps that put a result in place put the outcome of its id in place. */
  lemma {:induction false} ResultSwapAgrees(wf: Workflow, o: Outcomes, w: Network, s: Step)
    requires ResultsAgree(w.tokens, o) && Orderly(wf, o, w, s)
    requires s.Report? || s.TakeResult? || s.HandleResult? || s.HandlerDies?
    ensures ResultsAgree(Swap(wf, w, s).1, o)
    ensures s.HandleResult? || s.HandlerDies? ==> s.res == o(s.id)
  {
    hide Handle, HandleCrashed, Commit, Lawful, GoodListing, Admissible, Routed, ToActivity, ToEngine, TablesAfter,
         ResultsAgree;
    OneAgrees(o, Reported(0), 0);
    if s.Report? {
      ToEngineAlways(w.registered, s.id, s.res);
      assert Swap(wf, w, s).1 == multiset{Reported(s.id), ResultQueued(s.id, s.res)};
      OneAgrees(o, ResultQueued(s.id, s.res), s.id);
    } else if s.TakeResult? {
      TokenAgrees(o, w.tokens, ResultQueued(s.id, s.res));
      OneAgrees(o, Handling(s.id, s.res), 0);
    } else {
      TokenAgrees(o, w.tokens, Handling(s.id, s.res));
      OneAgrees(o, ResultQueued(s.id, s.res), 0);
    }
  }

  lemma {:induction false} TaskSwapAgrees(wf: Workflow, o: Outcomes, w: Network, s: Step)
    requires Possible(wf, w, s) && !s.Report? && !s.TakeResult? && !s.HandleResult? && !s.HandlerDies?
    ensures ResultsAgree(Swap(wf, w, s).1, o)
  {
    hide Handle, HandleCrashed, Commit, Lawful, GoodListing, Routed, ToActivity, TablesAfter, ResultsAgree;
    OneAgrees(o, Reported(0), 0);
    if s.Publish? {
      TasksAgree(o, w.registered, w.t.outbox[s.n]);
    } else if s.Expire? {
      ToActivityIf(w.registered, NameOf(w.t, s.id), s.id);
      OneAgrees(o, Queued(s.id), 0);
    } else if s.Take? {
      OneAgrees(o, Taken(s.id), 0);
    } else if s.Requeue? || s.WorkerDies? {
      OneAgrees(o, Queued(s.id), 0);
    }
  }

  lemma {:induction false} SwapAgrees(wf: Workflow, o: Outcomes, w: Network, s: Step)
    requires ResultsAgree(w.tokens, o) && Orderly(wf, o, w, s)
    ensures ResultsAgree(Swap(wf, w, s).1, o)
    ensures s.HandleResult? || s.HandlerDies? ==> s.res == o(s.id)
  {
    hide Possible, Swap, ResultsAgree, Admissible;
    if s.Report? || s.TakeResult? || s.HandleResult? || s.HandlerDies? {
      ResultSwapAgrees(wf, o, w, s);
    } else {
      TaskSwapAgrees(wf, o, w, s);
    }
  }

  lemma {:induction false} StepAgrees(wf: Workflow, o: Outcomes, w: Network, s: Step)
    requires ResultsAgree(w.tokens, o) && Orderly(wf, o, w, s)
    ensures ResultsAgree(Next(wf, w, s).tokens, o)
    ensures s.HandleResult? || s.HandlerDies? ==> s.res == o(s.id)
  {
    hide TablesAfter, Swap, Possible, ResultAgrees, Admissible;
    SwapAgrees(wf, o, w, s);
  }

  /** The action on the tables that an orderly step amounts to, if any. */
  ghost function ActionOf(s: Step): Option<Action> {
    match s
    case HandleResult(id, _) => Some(Deliver(id))
    case HandlerDies(id, _, cut) => if cut == AtEnd then Some(Deliver(id)) else None
    case Timeout(id) => Some(Deliver(id))
    case Retry(call) => if IsRetry(call) then Some(ActionOfRetry(call)) else None
    case _ => None
  }

  lemma {:induction false} OrderlyTables(wf: Workflow, o: Outcomes, w: Network, s: Step)
    requires Orderly(wf, o, w, s) && (s.HandleResult? || s.HandlerDies? ==> s.res == o(s.id))
    ensures match ActionOf(s)
            case None => Next(wf, w, s).t == w.t
            case Some(a) => Admissible(wf, w.t, a) && Next(wf, w, s).t == Act(wf, w.t, o, a)
  {
    hide Handle, HandleCrashed, Lawful, GoodListing, Swap;
  }

  /** The activities of pending rows are registered. */
  ghost predicate PendingRegistered(w: Network) {
    forall i: nat | IsPending(w.t, i) :: w.t.rows[i].name in w.registered
  }

  lemma {:induction false} RegisteredIsNotLost(w: Network, s: Step)
    requires PendingRegistered(w)
    ensures !Loses(w, s)
  {
  }

  lemma {:induction false} OrderlyKeeps(wf: Workflow, o: Outcomes, w: Network, s: Step)
    requires Definition(wf) && InOrder(wf, o, w) && PendingRegistered(w) && Orderly(wf, o, w, s)
    ensures InOrder(wf, o, Next(wf, w, s))
  {
    hide Handle, Kept, NothingLost, ResultsAgree, Possible, Next, Act, Refines, Agrees, Admissible, PendingRegistered,
        Loses;
    NextKept(wf, w, s);
    RegisteredIsNotLost(w, s);
    NextExactly(wf, w, s);
    StepAgrees(wf, o, w, s);
    OrderlyTables(wf, o, w, s);
    if ActionOf(s).Some? { ActRefines(wf, w.t, o, ActionOf(s).value); }
  }

  /******* Towards an end *******/

  /** How many steps the task of row `i` is from being settled. */
  ghost function Distance(o: Outcomes, tokens: multiset<Token>, i: nat): nat {
    if Handling(i, o(i)) in tokens then 1
    else if ResultQueued(i, o(i)) in tokens then 2
    else if Taken(i) in tokens then 3
    else if Queued(i) in tokens then 4
    else if Parked(i) in tokens then 5
    else 6
  }

  ghost predicate Advances(wf: Workflow, o: Outcomes, w: Network, s: Step, i: nat) {
    && Orderly(wf, o, w, s) && !s.Register?
    && if s.HandleResult? then s == HandleResult(i, o(i))
       else Next(wf, w, s).t == w.t && Distance(o, Next(wf, w, s).tokens, i) < Distance(o, w.tokens, i)
  }

  ghost predicate CanAdvance(wf: Workflow, o: Outcomes, w: Network) {
    exists s, i :: Advances(wf, o, w, s, i) && IsPending(w.t, i)
  }

  lemma {:induction false} SomeToken(o: Outcomes, tokens: multiset<Token>, i: nat)
    requires InFlight(tokens, i) && ResultsAgree(tokens, o)
    ensures Distance(o, tokens, i) < 6
  {
  }

  lemma {:induction false} TokenCloser(o: Outcomes, tokens: multiset<Token>, i: nat, from: Token,
      to: multiset<Token>, k: Token)
    requires k in to && (k == Queued(i) || k == Taken(i) || k == ResultQueued(i, o(i)) || k == Handling(i, o(i)))
    requires Distance(o, multiset{k}, i) < Distance(o, tokens, i)
    ensures Distance(o, tokens - multiset{from} + to, i) < Distance(o, tokens, i)
  {
  }

  /** A step that puts token `k` in the place of another one. */
  lemma {:induction false} Closer(wf: Workflow, o: Outcomes, w: Network, s: Step, i: nat, from: Token,
      to: multiset<Token>, k: Token)
    requires Orderly(wf, o, w, s) && !s.Register? && !s.HandleResult?
    requires TablesAfter(wf, w, s) == w.t && Swap(wf, w, s) == (multiset{from}, to)
    requires k in to && (k == Queued(i) || k == Taken(i) || k == ResultQueued(i, o(i)) || k == Handling(i, o(i)))
    requires Distance(o, multiset{k}, i) < Distance(o, w.tokens, i)
    ensures Advances(wf, o, w, s, i)
  {
    hide Orderly, TablesAfter, Swap, Distance;
    TokenCloser(o, w.tokens, i, from, to, k);
  }

  lemma {:induction false} TokenStep(wf: Workflow, o: Outcomes, w: Network, i: nat) returns (s: Step)
    requires ResultsAgree(w.tokens, o) && InFlight(w.tokens, i) && NameOf(w.t, i) in w.registered
    ensures Advances(wf, o, w, s, i)
  {
    hide Handle, HandleCrashed, Lawful, GoodListing, Admissible, ResultsAgree, InFlight, ToActivity, ToEngine, Next;
    SomeToken(o, w.tokens, i);
    if Handling(i, o(i)) in w.tokens {
      s := HandleResult(i, o(i));
    } else if ResultQueued(i, o(i)) in w.tokens {
      s := TakeResult(i, o(i));
      Closer(wf, o, w, s, i, ResultQueued(i, o(i)), multiset{Handling(i, o(i))}, Handling(i, o(i)));
    } else if Taken(i) in w.tokens {
      s := Report(i, o(i));
      ToEngineAlways(w.registered, i, o(i));
      assert Swap(wf, w, s).1 == multiset{Reported(i), ResultQueued(i, o(i))};
      Closer(wf, o, w, s, i, Taken(i), multiset{Reported(i), ResultQueued(i, o(i))}, ResultQueued(i, o(i)));
    } else if Queued(i) in w.tokens {
      s := Take(i);
      Closer(wf, o, w, s, i, Queued(i), multiset{Taken(i)}, Taken(i));
    } else {
      s := Expire(i);
      ToActivityIf(w.registered, NameOf(w.t, i), i);
      Closer(wf, o, w, s, i, Parked(i), multiset{Queued(i)}, Queued(i));
    }
  }

  /**
   * While a row of a registered activity is pending, some step takes its task closer to being settled, or settles it.
   */
  lemma {:induction false} EnabledStep(wf: Workflow, o: Outcomes, w: Network, i: nat) returns (s: Step)
    requires Kept(w) && NothingLost(w) && ResultsAgree(w.tokens, o)
    requires IsPending(w.t, i) && w.t.rows[i].name in w.registered
    ensures Advances(wf, o, w, s, i)
  {
    hide Sound, Handle, ResultsAgree, InFlight, Distance, TiersDeclared, Possible;
    assert OnItsWay(w, i);
    if InFlight(w.tokens, i) {
      s := TokenStep(wf, o, w, i);
    } else {
      var n :| IsUnsent(w, i, n);
      s := Publish(n);
      NoTokenFar(o, w.tokens, i);
      PublishBringsCloser(wf, o, w, i, n);
    }
  }

  lemma {:induction false} NoTokenFar(o: Outcomes, tokens: multiset<Token>, i: nat)
    requires !InFlight(tokens, i)
    ensures Distance(o, tokens, i) == 6
  {
  }

  lemma {:induction false} PublishBringsCloser(wf: Workflow, o: Outcomes, w: Network, i: nat, n: nat)
    requires Kept(w) && IsUnsent(w, i, n) && NameOf(w.t, i) in w.registered
    ensures Orderly(wf, o, w, Publish(n)) && Next(wf, w, Publish(n)).t == w.t
    ensures Distance(o, Next(wf, w, Publish(n)).tokens, i) < 6
  {
    hide Sound, Routed, TiersDeclared, Handle, HandleCrashed, Lawful;
    TaskNames(w.t, n);
    TierOf(w.t.outbox, n);
    RoutedByTier(w.registered, w.t.outbox[n]);
  }

  ghost predicate AllOrderly(wf: Workflow, o: Outcomes, w: Network, steps: seq<Step>)
    decreases |steps|
  {
    steps != [] ==> Orderly(wf, o, w, steps[0]) && AllOrderly(wf, o, Next(wf, w, steps[0]), steps[1..])
  }

  /** Where orderly steps lead. */
  ghost function Onward(wf: Workflow, o: Outcomes, w: Network, steps: seq<Step>): Network
    requires AllOrderly(wf, o, w, steps)
    decreases |steps|
  {
    if steps == [] then w else Onward(wf, o, Next(wf, w, steps[0]), steps[1..])
  }

  lemma {:induction false} FirstOnward(wf: Workflow, o: Outcomes, w: Network, s: Step, rest: seq<Step>)
    requires Orderly(wf, o, w, s) && AllOrderly(wf, o, Next(wf, w, s), rest)
    ensures AllOrderly(wf, o, w, [s] + rest) && Onward(wf, o, w, [s] + rest) == Onward(wf, o, Next(wf, w, s), rest)
  {
    assert ([s] + rest)[1..] == rest;
  }

  lemma {:induction false} LastIsPending(wf: Workflow, t: Tables)
    requires Refines(wf, t) && !IsEnd(t.status)
    ensures |t.rows| > 0 && IsPending(t, |t.rows| - 1) && Active(State(wf, t))
  {
  }

  /******* The activities that must be registered *******/

  /** All activities, then what is undone when the last of them fails: the names a first attempt can bear, in order. */
  ghost function Path(wf: Workflow): seq<string>
    requires wf != []
  {
    ForwardNames(wf, |wf|) + UndoPlan(wf, |wf| - 1)
  }

  ghost function Needed(wf: Workflow): set<string>
    requires wf != []
  {
    set name | name in Path(wf)
  }

  lemma {:induction false} DoingIsNeeded(wf: Workflow, s: Saga)
    requires Valid(wf, s) && Active(s)
    ensures Doing(wf, s) in Needed(wf)
  {
    match s
    case Forward(k, _) =>
      ForwardNameAt(wf, |wf|, k);
      assert Path(wf)[k] == wf[k].name;
    case Undo(k, j, _) =>
      UndoPlanMembers(wf, k);
      UndoPlanMembers(wf, |wf| - 1);
      assert UndoPlan(wf, k)[j] in UndoPlan(wf, k);
      assert UndoPlan(wf, k)[j] in UndoPlan(wf, |wf| - 1);
  }

  /** A pending row is of a needed activity. */
  lemma {:induction false} PendingIsNeeded(wf: Workflow, w: Network)
    requires wf != [] && Refines(wf, w.t) && Needed(wf) <= w.registered
    ensures PendingRegistered(w)
  {
    hide Sound, UndoPlan, CompletedInOrder, DeadRowsFailed, State, Refines, Needed;
    RefinesFacts(wf, w.t);
    forall i: nat | IsPending(w.t, i) ensures w.t.rows[i].name in w.registered {
      SettledBeforeLast(wf, w.t, i);
      DoingIsNeeded(wf, State(wf, w.t));
    }
  }

  lemma {:induction false} RegisteredStays(wf: Workflow, w: Network, s: Step)
    requires Possible(wf, w, s)
    ensures w.registered <= Next(wf, w, s).registered
    ensures !s.Register? ==> w.registered == Next(wf, w, s).registered
  {
  }

  lemma {:induction false} OnwardInOrder(wf: Workflow, o: Outcomes, w: Network, steps: seq<Step>)
    requires Definition(wf) && InOrder(wf, o, w) && Needed(wf) <= w.registered && AllOrderly(wf, o, w, steps)
    ensures InOrder(wf, o, Onward(wf, o, w, steps)) && Needed(wf) <= Onward(wf, o, w, steps).registered
    decreases |steps|
  {
    hide Kept, NothingLost, Refines, Agrees, ResultsAgree, Possible, Next, Needed;
    if steps != [] {
      PendingIsNeeded(wf, w);
      OrderlyKeeps(wf, o, w, steps[0]);
      RegisteredStays(wf, w, steps[0]);
      OnwardInOrder(wf, o, Next(wf, w, steps[0]), steps[1..]);
    }
  }

  lemma {:induction false} FreshInOrder(wf: Workflow, exec: string, registered: set<string>, o: Outcomes)
    requires Definition(wf)
    ensures InOrder(wf, o, Fresh(exec, wf, registered))
  {
    hide Kept, NothingLost, Refines;
    FreshLosesNothing(exec, wf, registered);
    CreateRefines(exec, wf);
  }

  /** From any such state the execution can still be driven to its end, by steps that all are possible. */
  lemma {:induction false} CanFinish(wf: Workflow, o: Outcomes, w: Network) returns (steps: seq<Step>)
    requires Definition(wf) && InOrder(wf, o, w) && Needed(wf) <= w.registered
    ensures AllOrderly(wf, o, w, steps) && IsEnd(Onward(wf, o, w, steps).t.status)
    decreases Rank(wf, w.t), if w.t.rows == [] then 0 else Distance(o, w.tokens, |w.t.rows| - 1)
  {
    hide Kept, NothingLost, Refines, Agrees, State, Rank, Distance, Handle, ResultsAgree, IsEnd, Possible, Needed;
    if IsEnd(w.t.status) {
      return [];
    }
    LastDelivery(wf, o, w.t);
    LastIsPending(wf, w.t);
    PendingIsNeeded(wf, w);
    var i := |w.t.rows| - 1;
    var s := EnabledStep(wf, o, w, i);
    OrderlyKeeps(wf, o, w, s);
    RegisteredStays(wf, w, s);
    if s.HandleResult? {
      HandlesLast(wf, o, w, s);
    }
    var rest := CanFinish(wf, o, Next(wf, w, s));
    FirstOnward(wf, o, w, s, rest);
    steps := [s] + rest;
  }

  lemma {:induction false} HandlesLast(wf: Workflow, o: Outcomes, w: Network, s: Step)
    requires w.t.rows != [] && s == HandleResult(|w.t.rows| - 1, o(|w.t.rows| - 1)) && Possible(wf, w, s)
    ensures Next(wf, w, s).t == DeliverLast(wf, o, w.t)
  {
    hide Handle, Swap;
  }

  /**
   * Never stuck: after any orderly history of failed publications, redeliveries, crashes, timeouts and retries by
   * hand, an execution that is still going has an enabled step that moves its pending row's task on, and can still
   * reach an end. What it needs is registered.
   */
  lemma {:induction false} NeverStuck(wf: Workflow, exec: string, registered: set<string>, o: Outcomes,
      steps: seq<Step>)
    requires Definition(wf) && Needed(wf) <= registered && AllOrderly(wf, o, Fresh(exec, wf, registered), steps)
    ensures var w := Onward(wf, o, Fresh(exec, wf, registered), steps);
            && (exists more :: AllOrderly(wf, o, w, more) && IsEnd(Onward(wf, o, w, more).t.status))
            && (IsEnd(w.t.status) || CanAdvance(wf, o, w))
  {
    hide Kept, NothingLost, Refines, Agrees, State, Advances, IsEnd, Create, Needed, ResultsAgree, Possible, Orderly,
        Next;
    FreshInOrder(wf, exec, registered, o);
    OnwardInOrder(wf, o, Fresh(exec, wf, registered), steps);
    var w := Onward(wf, o, Fresh(exec, wf, registered), steps);
    var more := CanFinish(wf, o, w);
    if !IsEnd(w.t.status) {
      LastIsPending(wf, w.t);
      PendingIsNeeded(wf, w);
      var s := EnabledStep(wf, o, w, |w.t.rows| - 1);
    }
  }
}
