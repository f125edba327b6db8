/** Which activities workers must have registered: exactly those that some run comes to. */
module Registration {
  import opened Models
  import opened Compensation
  import opened Tables
  import opened Adversary
  import opened Saga
  import opened Refinement
  import opened SagaTheorems
  import opened Delivery
  import opened Progress

  /******* One task message per row *******/

  /** A task message stands in the list of tasks where the tasks before it end. */
  lemma {:induction false} TaskAt(outbox: seq<OutboxMessage>, n: nat)
    requires n < |outbox| && outbox[n].tier != DLQ_TIER
    ensures |TaskMessages(outbox[..n])| < |TaskMessages(outbox)|
    ensures TaskMessages(outbox)[|TaskMessages(outbox[..n])|] == outbox[n]
  {
    var init := outbox[..|outbox| - 1];
    if n < |outbox| - 1 {
      TaskAt(init, n);
      assert init[..n] == outbox[..n];
    }
  }

  lemma {:induction false} TasksDiffer(t: Tables, n: nat, m: nat)
    requires Sound(t) && n < m < |t.outbox| && t.outbox[n].tier != DLQ_TIER && t.outbox[m].tier != DLQ_TIER
    ensures t.outbox[n].task.activityId != t.outbox[m].task.activityId
  {
    hide KeysFormed, AttemptsContiguous, TimesBounded;
    TaskAt(t.outbox, n);
    TaskAt(t.outbox, m);
    TaskAt(t.outbox[..m], n);
    assert t.outbox[..m][..n] == t.outbox[..n];
  }

  /******* A row whose task has not been touched *******/

  /** The row's task is still in the outbox, unsent, and nothing else is about the row. */
  ghost predicate UntouchedRow(w: Network, i: nat) {
    (exists n: nat :: IsUnsent(w, i, n)) && forall k | k in w.tokens :: k.id != i
  }

  ghost predicate Untouched(w: Network) {
    w.t.rows != [] && UntouchedRow(w, |w.t.rows| - 1)
  }

  /** Handling the last row's result leaves the row that it launches untouched. */
  lemma {:induction false} LaunchedIsUntouched(wf: Workflow, w: Network, s: Step)
    requires Kept(w) && s.HandleResult? && Possible(wf, w, s) && s.id < |w.t.rows|
    requires var w' := Next(wf, w, s); NothingLost(w') && |w'.t.rows| == |w.t.rows| + 1 && IsPending(w'.t, |w.t.rows|)
    ensures Untouched(Next(wf, w, s))
  {
    hide Sound, TiersDeclared, Possible, TablesAfter;
    var w' := Next(wf, w, s);
    OldTokens(wf, w, s);
    assert OnItsWay(w', |w.t.rows|);
    assert UntouchedRow(w', |w.t.rows|);
  }

  lemma {:induction false} OldTokens(wf: Workflow, w: Network, s: Step)
    requires Kept(w) && Possible(wf, w, s)
    ensures forall k | k in Next(wf, w, s).tokens :: k.id < |w.t.rows|
  {
    hide Sound, TiersDeclared, Possible, TablesAfter, Swap;
    SwapIsKnown(wf, w, s);
  }

  /** The task of a pending row whose activity is registered can be carried to the engine and its result handled. */
  lemma {:induction false} HandledLast(wf: Workflow, o: Outcomes, w: Network) returns (steps: seq<Step>)
    requires Definition(wf) && InOrder(wf, o, w) && PendingRegistered(w) && !IsEnd(w.t.status)
    ensures AllOrderly(wf, o, w, steps)
    ensures var w' := Onward(wf, o, w, steps);
            && InOrder(wf, o, w') && w'.registered == w.registered && w'.t == DeliverLast(wf, o, w.t)
            && (!IsEnd(w'.t.status) ==> Untouched(w'))
    decreases if w.t.rows == [] then 0 else Distance(o, w.tokens, |w.t.rows| - 1)
  {
    hide Kept, NothingLost, Refines, Agrees, State, Distance, Handle, ResultsAgree, IsEnd, Possible, Next, Untouched,
         PendingRegistered, IsPending, Admissible;
    LastIsPending(wf, w.t);
    var i := |w.t.rows| - 1;
    RegisteredName(w, i);
    var s := EnabledStep(wf, o, w, i);
    OrderlyKeeps(wf, o, w, s);
    RegisteredStays(wf, w, s);
    var w' := Next(wf, w, s);
    if s.HandleResult? {
      HandlesLast(wf, o, w, s);
      if !IsEnd(w'.t.status) { GoesOnUntouched(wf, o, w, s); }
      steps := [s];
      FirstOnward(wf, o, w, s, []);
      assert [s] + [] == [s];
    } else {
      StillRegistered(w, w');
      var rest := HandledLast(wf, o, w');
      FirstOnward(wf, o, w, s, rest);
      steps := [s] + rest;
    }
  }

  lemma {:induction false} RegisteredName(w: Network, i: nat)
    requires PendingRegistered(w) && IsPending(w.t, i)
    ensures i < |w.t.rows| && w.t.rows[i].name in w.registered
  {
  }

  lemma {:induction false} StillRegistered(w: Network, w': Network)
    requires PendingRegistered(w) && w'.t == w.t && w'.registered == w.registered
    ensures PendingRegistered(w')
  {
  }

  lemma {:induction false} GoesOnUntouched(wf: Workflow, o: Outcomes, w: Network, s: Step)
    requires Definition(wf) && InOrder(wf, o, w) && Possible(wf, w, s) && w.t.rows != []
    requires s == HandleResult(|w.t.rows| - 1, o(|w.t.rows| - 1)) && Active(State(wf, w.t))
    requires InOrder(wf, o, Next(wf, w, s)) && !IsEnd(Next(wf, w, s).t.status)
    ensures Untouched(Next(wf, w, s))
  {
    hide Kept, NothingLost, Refines, Agrees, State, Handle, ResultsAgree, Possible, Orderly, Next, Untouched, IsEnd;
    HandlesLast(wf, o, w, s);
    var w' := Next(wf, w, s);
    LastIsPending(wf, w'.t);
    RowsAfter(wf, w.t, o, |w.t.rows| - 1);
    LaunchedIsUntouched(wf, w, s);
  }

  /******* Losing it *******/

  /** Nobody has registered the activity of a row whose task is untouched: sending it loses it. */
  lemma {:induction false} UnregisteredIsLost(wf: Workflow, o: Outcomes, w: Network) returns (steps: seq<Step>)
    requires Kept(w) && Untouched(w) && IsPending(w.t, |w.t.rows| - 1) && Last(w.t.rows).name !in w.registered
    ensures AllOrderly(wf, o, w, steps) && !NothingLost(Onward(wf, o, w, steps))
  {
    hide Sound, TiersDeclared, Possible, Next, OnItsWay, Lawful, OnlyParked;
    var i := |w.t.rows| - 1;
    var n: nat :| IsUnsent(w, i, n);
    TierOf(w.t.outbox, n);
    PublishUnregistered(wf, o, w, n, i);
    var w1 := Next(wf, w, Publish(n));
    if w.t.outbox[n].tier == 0 {
      FirstOnward(wf, o, w, Publish(n), []);
      steps := [Publish(n)] + [];
    } else {
      ExpireUnregistered(wf, o, w1, i);
      FirstOnward(wf, o, w1, Expire(i), []);
      FirstOnward(wf, o, w, Publish(n), [Expire(i)] + []);
      steps := [Publish(n)] + ([Expire(i)] + []);
    }
    var last := Onward(wf, o, w, steps);
    assert IsPending(last.t, i) && !OnItsWay(last, i);
  }

  /** Row `i` has no message left to send, and one parked task at most. */
  ghost predicate OnlyParked(w: Network, i: nat) {
    (forall m :: !IsUnsent(w, i, m)) && !InFlight(w.tokens - multiset{Parked(i)}, i)
  }

  lemma {:induction false} OnlyMessage(w: Network, i: nat, n: nat)
    requires Kept(w) && IsUnsent(w, i, n)
    ensures forall m: nat | IsUnsent(w, i, m) :: m == n
  {
    hide Sound, TiersDeclared;
    forall m: nat | IsUnsent(w, i, m) ensures m == n {
      if m < n { TasksDiffer(w.t, m, n); } else if n < m { TasksDiffer(w.t, n, m); }
    }
  }

  lemma {:induction false} PublishOne(wf: Workflow, o: Outcomes, w: Network, n: nat)
    requires n < |w.t.outbox| && n !in w.deleted
    ensures Orderly(wf, o, w, Publish(n))
    ensures Next(wf, w, Publish(n)) ==
              w.(sent := w.sent + {n}, tokens := w.tokens + Routed(w.registered, w.t.outbox[n]))
  {
    hide Routed, Handle, HandleCrashed, Commit, Lawful, GoodListing;
    assert w.tokens - multiset{} == w.tokens;
  }

  lemma {:induction false} NothingOfIt(tokens: multiset<Token>, i: nat)
    requires forall k | k in tokens :: k.id != i
    ensures !InFlight(tokens, i)
  {
  }

  lemma {:induction false} PublishUnregistered(wf: Workflow, o: Outcomes, w: Network, n: nat, i: nat)
    requires Kept(w) && IsUnsent(w, i, n) && IsPending(w.t, i) && w.t.rows[i].name !in w.registered
    requires forall k | k in w.tokens :: k.id != i
    ensures Orderly(wf, o, w, Publish(n))
    ensures var w' := Next(wf, w, Publish(n));
            && w'.t == w.t && w'.registered == w.registered
            && (w.t.outbox[n].tier == 0 ==> !OnItsWay(w', i))
            && (w.t.outbox[n].tier != 0 ==> Parked(i) in w'.tokens && OnlyParked(w', i))
  {
    hide Routed, Sound, TiersDeclared, Orderly, Next, InFlight;
    NotDeleted(w, i, n);
    PublishOne(wf, o, w, n);
    var w', m := Next(wf, w, Publish(n)), w.t.outbox[n];
    TaskNames(w.t, n);
    TierOf(w.t.outbox, n);
    RoutedByTier(w.registered, m);
    OnlyMessage(w, i, n);
    NothingOfIt(w.tokens, i);
    forall k: nat ensures !IsUnsent(w', i, k) {
      assert IsUnsent(w', i, k) ==> IsUnsent(w, i, k);
    }
    assert m.tier == 0 ==> w'.tokens == w.tokens;
    assert m.tier != 0 ==> w'.tokens - multiset{Parked(i)} == w.tokens;
  }

  lemma {:induction false} NotDeleted(w: Network, i: nat, n: nat)
    requires Kept(w) && IsUnsent(w, i, n)
    ensures n !in w.deleted
  {
  }

  lemma {:induction false} ExpireUnregistered(wf: Workflow, o: Outcomes, w: Network, i: nat)
    requires Parked(i) in w.tokens && OnlyParked(w, i)
    requires IsPending(w.t, i) && w.t.rows[i].name !in w.registered
    ensures Orderly(wf, o, w, Expire(i)) && Next(wf, w, Expire(i)).t == w.t && !OnItsWay(Next(wf, w, Expire(i)), i)
  {
    hide ToActivity, Handle, HandleCrashed, Commit, Lawful, GoodListing;
    ToActivityIf(w.registered, NameOf(w.t, i), i);
    var w' := Next(wf, w, Expire(i));
    assert w'.tokens == w.tokens - multiset{Parked(i)};
    forall m: nat ensures !IsUnsent(w', i, m) { assert !IsUnsent(w, i, m); }
  }

  /******* A run that comes to every needed activity *******/

  /** All activities succeed but the last, which fails for good; so do all compensations. */
  function PathOutcomes(wf: Workflow): Outcomes
    requires wf != []
  {
    id => if id == |wf| - 1 then Fails(true) else Succeeds
  }

  ghost function PathState(wf: Workflow, m: nat): Saga
    requires wf != [] && m < |Path(wf)|
  {
    if m < |wf| then Forward(m, 1) else Undo(|wf| - 1, m - |wf|, 1)
  }

  ghost predicate AtPath(wf: Workflow, t: Tables, m: nat)
    requires wf != [] && m < |Path(wf)|
  {
    Refines(wf, t) && State(wf, t) == PathState(wf, m) && |t.rows| == m + 1
  }

  lemma {:induction false} PathStep(wf: Workflow, t: Tables, m: nat)
    requires Definition(wf) && m + 1 < |Path(wf)| && AtPath(wf, t, m) && Agrees(t, PathOutcomes(wf))
    ensures AtPath(wf, DeliverLast(wf, PathOutcomes(wf), t), m + 1)
  {
    hide Refines, State, Agrees, Act, Sound, UndoPlan;
    var o := PathOutcomes(wf);
    DoingKind(wf, PathState(wf, m));
    ActRefines(wf, t, o, Deliver(m));
    RowsAfter(wf, t, o, m);
    PathIdeal(wf, m);
  }

  lemma {:induction false} PathIdeal(wf: Workflow, m: nat)
    requires Sensible(wf) && m + 1 < |Path(wf)|
    ensures var s := PathState(wf, m);
            Valid(wf, s) && Active(s) && Ideal(wf, s, PathOutcomes(wf)(m)) == PathState(wf, m + 1)
  {
    hide UndoPlan;
  }

  lemma {:induction false} PathName(wf: Workflow, t: Tables, m: nat)
    requires wf != [] && m < |Path(wf)| && AtPath(wf, t, m)
    ensures IsPending(t, m) && t.rows[m].name == Path(wf)[m] && Active(State(wf, t))
  {
    hide Sound, UndoPlan, Refines, State;
    RefinesFacts(wf, t);
    SettledBeforeLast(wf, t, m);
    if m < |wf| { ForwardNameAt(wf, |wf|, m); }
  }

  /** As long as what comes up is registered, some orderly run comes to every name of the path. */
  lemma {:induction false} ReachPath(wf: Workflow, exec: string, registered: set<string>, m: nat)
    returns (steps: seq<Step>)
    requires Definition(wf) && m < |Path(wf)| && forall i | 0 <= i < m :: Path(wf)[i] in registered
    ensures var o := PathOutcomes(wf);
            && AllOrderly(wf, o, Fresh(exec, wf, registered), steps)
            && var w := Onward(wf, o, Fresh(exec, wf, registered), steps);
               InOrder(wf, o, w) && w.registered == registered && AtPath(wf, w.t, m) && Untouched(w)
  {
    hide Refines, State, Agrees, Kept, NothingLost, Untouched, Path, AtPath, ResultsAgree, Onward, AllOrderly, Fresh;
    var o := PathOutcomes(wf);
    var start := Fresh(exec, wf, registered);
    if m == 0 {
      steps := [];
      FreshInOrder(wf, exec, registered, o);
      PathStarts(wf, exec, registered);
    } else {
      var before := ReachPath(wf, exec, registered, m - 1);
      var w := Onward(wf, o, start, before);
      PathGoesOn(wf, w, m - 1);
      var more := HandledLast(wf, o, w);
      PathStep(wf, w.t, m - 1);
      OnwardAppend(wf, o, start, before, more);
      steps := before + more;
      var w' := Onward(wf, o, start, steps);
      PathName(wf, w'.t, m);
      ActiveIsNoEnd(wf, w'.t);
    }
  }

  lemma {:induction false} ActiveIsNoEnd(wf: Workflow, t: Tables)
    requires Refines(wf, t)
    ensures Active(State(wf, t)) <==> !IsEnd(t.status)
  {
    RefinesFacts(wf, t);
  }

  lemma {:induction false} PathGoesOn(wf: Workflow, w: Network, m: nat)
    requires wf != [] && m < |Path(wf)| && AtPath(wf, w.t, m) && Path(wf)[m] in w.registered
    ensures PendingRegistered(w) && !IsEnd(w.t.status)
  {
    hide Path, State, Sound, UndoPlan, Refines;
    PathName(wf, w.t, m);
    ActiveIsNoEnd(wf, w.t);
    forall i: nat | IsPending(w.t, i) ensures i == m {
      SettledBeforeLast(wf, w.t, i);
    }
  }

  lemma {:induction false} PathStarts(wf: Workflow, exec: string, registered: set<string>)
    requires wf != []
    ensures var w := Fresh(exec, wf, registered);
            0 < |Path(wf)| && AtPath(wf, w.t, 0) && Untouched(w) && AllOrderly(wf, PathOutcomes(wf), w, [])
            && Onward(wf, PathOutcomes(wf), w, []) == w && w.registered == registered
  {
    hide Refines, State, UndoPlan;
    CreateRefines(exec, wf);
    var w := Fresh(exec, wf, registered);
    assert IsUnsent(w, 0, 0);
    assert UntouchedRow(w, 0);
  }

  lemma {:induction false} OnwardAppend(wf: Workflow, o: Outcomes, w: Network, a: seq<Step>, b: seq<Step>)
    requires AllOrderly(wf, o, w, a) && AllOrderly(wf, o, Onward(wf, o, w, a), b)
    ensures AllOrderly(wf, o, w, a + b) && Onward(wf, o, w, a + b) == Onward(wf, o, Onward(wf, o, w, a), b)
    decreases |a|
  {
    hide Next, Possible, Admissible;
    if a == [] {
      assert a + b == b;
    } else {
      assert (a + b)[1..] == a[1..] + b;
      OnwardAppend(wf, o, Next(wf, w, a[0]), a[1..], b);
    }
  }

  /** In every orderly run each pending row has something on its way. */
  ghost predicate OrderlyLosesNothing(wf: Workflow, exec: string, registered: set<string>) {
    forall o: Outcomes, steps | AllOrderly(wf, o, Fresh(exec, wf, registered), steps) ::
      NothingLost(Onward(wf, o, Fresh(exec, wf, registered), steps))
  }

  /**
   * The exact condition over all orderly runs of an execution started when the workers of `registered` have declared
   * their queues: nothing is ever lost if and only if these are all activities of the definition and all compensations
   * of those before the last.
   */
  lemma {:induction false} RegisteredExactly(wf: Workflow, exec: string, registered: set<string>)
    requires Definition(wf)
    ensures OrderlyLosesNothing(wf, exec, registered) <==> Needed(wf) <= registered
  {
    hide Path, Fresh, AllOrderly, Onward, NothingLost, InOrder;
    if Needed(wf) <= registered {
      forall o: Outcomes, steps | AllOrderly(wf, o, Fresh(exec, wf, registered), steps)
        ensures NothingLost(Onward(wf, o, Fresh(exec, wf, registered), steps))
      {
        NeededIsEnough(wf, exec, registered, o, steps);
      }
    } else {
      var steps := MissingIsLost(wf, exec, registered);
    }
  }

  lemma {:induction false} NeededIsEnough(wf: Workflow, exec: string, registered: set<string>, o: Outcomes,
      steps: seq<Step>)
    requires Definition(wf) && Needed(wf) <= registered && AllOrderly(wf, o, Fresh(exec, wf, registered), steps)
    ensures NothingLost(Onward(wf, o, Fresh(exec, wf, registered), steps))
  {
    hide Needed, AllOrderly, Onward, NothingLost, Kept, Reached, ResultsAgree, Create;
    FreshInOrder(wf, exec, registered, o);
    OnwardInOrder(wf, o, Fresh(exec, wf, registered), steps);
  }

  lemma {:induction false} FirstMissing(names: seq<string>, registered: set<string>) returns (m: nat)
    requires exists name :: name in names && name !in registered
    ensures m < |names| && names[m] !in registered && forall i | 0 <= i < m :: names[i] in registered
  {
    if names[0] !in registered { return 0; }
    assert names == [names[0]] + names[1..];
    var k := FirstMissing(names[1..], registered);
    m := k + 1;
    forall i | 0 <= i < m ensures names[i] in registered {
      if i > 0 { assert names[i] == names[1..][i - 1]; }
    }
  }

  lemma {:induction false} MissingIsLost(wf: Workflow, exec: string, registered: set<string>)
    returns (steps: seq<Step>)
    requires Definition(wf) && !(Needed(wf) <= registered)
    ensures var o := PathOutcomes(wf);
            AllOrderly(wf, o, Fresh(exec, wf, registered), steps)
            && !NothingLost(Onward(wf, o, Fresh(exec, wf, registered), steps))
  {
    hide Path, AllOrderly, Onward, NothingLost, Kept, Reached, ResultsAgree, Fresh, AtPath, Refines, State, Untouched;
    var o := PathOutcomes(wf);
    var m := FirstMissing(Path(wf), registered);
    var before := ReachPath(wf, exec, registered, m);
    var w := Onward(wf, o, Fresh(exec, wf, registered), before);
    PathName(wf, w.t, m);
    PathLength(wf, w.t, m);
    var more := UnregisteredIsLost(wf, o, w);
    OnwardAppend(wf, o, Fresh(exec, wf, registered), before, more);
    steps := before + more;
  }

  lemma {:induction false} PathLength(wf: Workflow, t: Tables, m: nat)
    requires wf != [] && m < |Path(wf)| && AtPath(wf, t, m)
    ensures |t.rows| == m + 1
  {
  }
}
