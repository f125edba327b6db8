/**
 * Infinite runs of the network. Whatever fails, dies, repeats or is retried by hand: if no step that serves a task
 * and is possible again and again is put off for ever, every execution ends.
 */
module Fairness {
  import opened Models
  import opened Tables
  import opened Adversary
  import opened Refinement
  import opened SagaTheorems
  import opened Delivery
  import opened Progress

  /** An infinite orderly run: the networks it goes through and the steps between them. */
  ghost predicate IsRun(wf: Workflow, exec: string, registered: set<string>, o: Outcomes, run: nat -> Network,
      step: nat -> Step)
  {
    run(0) == Fresh(exec, wf, registered) && forall n: nat :: StepAt(wf, o, run, step, n)
  }

  ghost predicate StepAt(wf: Workflow, o: Outcomes, run: nat -> Network, step: nat -> Step, n: nat) {
    Orderly(wf, o, run(n), step(n)) && run(n + 1) == Next(wf, run(n), step(n))
  }

  /** Publishing, expiring, taking, reporting and handling; not what fails, repeats or dies. */
  predicate Serves(o: Outcomes, s: Step) {
    match s
    case Publish(_) => true
    case Expire(_) => true
    case Take(_) => true
    case Report(id, res) => res == o(id)
    case TakeResult(_, _) => true
    case HandleResult(_, _) => true
    case _ => false
  }

  ghost predicate PossibleLater(wf: Workflow, run: nat -> Network, s: Step, m: nat) {
    exists n: nat :: m <= n && Possible(wf, run(n), s)
  }

  ghost predicate TakenLater(step: nat -> Step, s: Step, m: nat) {
    exists n: nat :: m <= n && step(n) == s
  }

  /** A step possible again and again is taken again and again. */
  ghost predicate FairTo(wf: Workflow, run: nat -> Network, step: nat -> Step, s: Step) {
    (forall m: nat :: PossibleLater(wf, run, s, m)) ==> forall m: nat :: TakenLater(step, s, m)
  }

  ghost predicate Fair(wf: Workflow, o: Outcomes, run: nat -> Network, step: nat -> Step) {
    forall s | Serves(o, s) :: FairTo(wf, run, step, s)
  }

  /** What the theorems are about. */
  ghost predicate FairRun(wf: Workflow, exec: string, registered: set<string>, o: Outcomes, run: nat -> Network,
      step: nat -> Step)
  {
    && Definition(wf) && Needed(wf) <= registered
    && IsRun(wf, exec, registered, o, run, step) && Fair(wf, o, run, step)
  }

  lemma {:induction false} RunInOrder(wf: Workflow, exec: string, registered: set<string>, o: Outcomes,
      run: nat -> Network, step: nat -> Step, n: nat)
    requires FairRun(wf, exec, registered, o, run, step)
    ensures InOrder(wf, o, run(n)) && Needed(wf) <= run(n).registered && PendingRegistered(run(n))
    ensures StepAt(wf, o, run, step, n)
  {
    hide InOrder, Needed, Next, Definition, PendingRegistered, Fair;
    if n == 0 {
      FreshInOrder(wf, exec, registered, o);
    } else {
      RunInOrder(wf, exec, registered, o, run, step, n - 1);
      assert StepAt(wf, o, run, step, n - 1);
      OrderlyKeeps(wf, o, run(n - 1), step(n - 1));
      RegisteredStays(wf, run(n - 1), step(n - 1));
    }
    InOrderPending(wf, o, run(n));
  }

  lemma {:induction false} InOrderPending(wf: Workflow, o: Outcomes, w: Network)
    requires Definition(wf) && InOrder(wf, o, w) && Needed(wf) <= w.registered
    ensures PendingRegistered(w)
    ensures !IsEnd(w.t.status) ==> w.t.rows != [] && IsPending(w.t, |w.t.rows| - 1)
  {
    hide Kept, NothingLost, ResultsAgree, Needed, Refines, PendingRegistered, IsEnd, State;
    PendingIsNeeded(wf, w);
    if !IsEnd(w.t.status) { LastIsPending(wf, w.t); }
  }

  /** Tables move by the result of the last row only; and, at an end, by a retry. */
  lemma {:induction false} TablesStep(wf: Workflow, o: Outcomes, w: Network, s: Step)
    requires Definition(wf) && InOrder(wf, o, w) && Orderly(wf, o, w, s)
    ensures !IsEnd(w.t.status) ==> Next(wf, w, s).t == w.t || Next(wf, w, s).t == DeliverLast(wf, o, w.t)
    ensures IsEnd(w.t.status) && !s.Retry? ==> Next(wf, w, s).t == w.t
    ensures w.t.rows != [] && s == HandleResult(|w.t.rows| - 1, o(|w.t.rows| - 1)) ==>
              Next(wf, w, s).t == DeliverLast(wf, o, w.t)
  {
    hide Kept, NothingLost, ResultsAgree, Refines, State, Agrees, Next, Possible, Admissible, Act;
    RefinesFacts(wf, w.t);
    StepAgrees(wf, o, w, s);
    OrderlyTables(wf, o, w, s);
    if ActionOf(s).Some? { ActRefines(wf, w.t, o, ActionOf(s).value); }
    if w.t.rows != [] && s == HandleResult(|w.t.rows| - 1, o(|w.t.rows| - 1)) { HandlesLast(wf, o, w, s); }
  }

  /******* While a row is pending *******/

  /** From `p` on nothing settles the last row `i`. */
  ghost predicate Stays(run: nat -> Network, p: nat, i: nat) {
    && !IsEnd(run(p).t.status) && i == |run(p).t.rows| - 1
    && forall n: nat :: p <= n ==> run(n).t == run(p).t
  }

  /** At `m` or later the task of row `i` is at most `d` steps from being settled. */
  ghost predicate Within(o: Outcomes, run: nat -> Network, i: nat, d: nat, m: nat) {
    exists n: nat :: m <= n && Distance(o, run(n).tokens, i) <= d
  }

  /** The step that serves row `i` at distance `d`. */
  function Serving(o: Outcomes, i: nat, d: nat): (s: Step)
    ensures Serves(o, s)
  {
    if d <= 1 then HandleResult(i, o(i))
    else if d == 2 then TakeResult(i, o(i))
    else if d == 3 then Report(i, o(i))
    else if d == 4 then Take(i)
    else Expire(i)
  }

  lemma {:induction false} ServingIsPossible(wf: Workflow, o: Outcomes, w: Network, i: nat)
    requires Distance(o, w.tokens, i) <= 5
    ensures Possible(wf, w, Serving(o, i, Distance(o, w.tokens, i))) && Distance(o, w.tokens, i) >= 1
  {
  }

  lemma {:induction false} TokenIsNear(o: Outcomes, tokens: multiset<Token>, i: nat)
    ensures Handling(i, o(i)) in tokens ==> Distance(o, tokens, i) <= 1
    ensures ResultQueued(i, o(i)) in tokens ==> Distance(o, tokens, i) <= 2
    ensures Taken(i) in tokens ==> Distance(o, tokens, i) <= 3
    ensures Queued(i) in tokens ==> Distance(o, tokens, i) <= 4
  {
  }

  lemma {:induction false} ServingServes(wf: Workflow, o: Outcomes, w: Network, i: nat, d: nat)
    requires 2 <= d <= 5 && Possible(wf, w, Serving(o, i, d)) && NameOf(w.t, i) in w.registered
    ensures Distance(o, Next(wf, w, Serving(o, i, d)).tokens, i) <= d - 1
  {
    hide Handle, Distance, ToActivity, ToEngine;
    var w' := Next(wf, w, Serving(o, i, d));
    ToActivityIf(w.registered, NameOf(w.t, i), i);
    TokenIsNear(o, w'.tokens, i);
    if d == 3 {
      ToEngineAlways(w.registered, i, o(i));
      assert ResultQueued(i, o(i)) in multiset{Reported(i)} + multiset{ResultQueued(i, o(i))};
    }
  }

  lemma {:induction false} Registered(w: Network, i: nat)
    requires PendingRegistered(w) && IsPending(w.t, i)
    ensures NameOf(w.t, i) in w.registered
  {
  }

  /** What is near again and again is served again and again. */
  lemma {:induction false} ServedLater(wf: Workflow, o: Outcomes, run: nat -> Network, step: nat -> Step, i: nat,
      d: nat, p: nat, m: nat)
    requires Fair(wf, o, run, step) && 1 <= d <= 5 && p <= m
    requires forall k: nat :: p <= k ==> Within(o, run, i, d, k)
    requires !Within(o, run, i, d - 1, m)
    ensures TakenLater(step, Serving(o, i, d), m)
  {
    hide Possible, Distance, Serving;
    var s := Serving(o, i, d);
    forall k: nat ensures PossibleLater(wf, run, s, k) {
      var j := if k < m then m else k;
      assert Within(o, run, i, d, j);
      var n: nat :| j <= n && Distance(o, run(n).tokens, i) <= d;
      ServingIsPossible(wf, o, run(n), i);
    }
    assert FairTo(wf, run, step, s);
  }

  lemma {:induction false} ServedAt(wf: Workflow, exec: string, registered: set<string>, o: Outcomes,
      run: nat -> Network, step: nat -> Step, i: nat, d: nat, p: nat, n: nat)
    requires FairRun(wf, exec, registered, o, run, step) && Stays(run, p, i) && 2 <= d <= 5 && p <= n
    requires step(n) == Serving(o, i, d)
    ensures Distance(o, run(n + 1).tokens, i) <= d - 1
  {
    hide Possible, Distance, Serving, InOrder, Next, Needed, Definition, PendingRegistered, Fair, IsEnd;
    RunInOrder(wf, exec, registered, o, run, step, n);
    InOrderPending(wf, o, run(n));
    Registered(run(n), i);
    ServingServes(wf, o, run(n), i, d);
  }

  lemma {:induction false} Nearer(wf: Workflow, exec: string, registered: set<string>, o: Outcomes,
      run: nat -> Network, step: nat -> Step, i: nat, d: nat, p: nat, m: nat)
    requires FairRun(wf, exec, registered, o, run, step) && Stays(run, p, i) && 2 <= d <= 5 && p <= m
    requires forall k: nat :: p <= k ==> Within(o, run, i, d, k)
    ensures Within(o, run, i, d - 1, m)
  {
    hide Distance, Serving, IsRun, Needed, Definition, Fair, Stays;
    if !Within(o, run, i, d - 1, m) {
      ServedLater(wf, o, run, step, i, d, p, m);
      var n: nat :| m <= n && step(n) == Serving(o, i, d);
      ServedAt(wf, exec, registered, o, run, step, i, d, p, n);
    }
  }

  /** A message that is sent between two moments is published between them. */
  lemma {:induction false} SentByPublishing(wf: Workflow, o: Outcomes, run: nat -> Network, step: nat -> Step, k: nat,
      m: nat, n: nat) returns (j: nat)
    requires m <= n && k !in run(m).sent && k in run(n).sent
    requires forall x: nat :: StepAt(wf, o, run, step, x)
    ensures m <= j < n && k !in run(j).sent && step(j) == Publish(k)
    decreases n - m
  {
    hide Orderly, Possible, TablesAfter, Swap;
    assert StepAt(wf, o, run, step, m);
    if k in run(m + 1).sent { j := m; } else { j := SentByPublishing(wf, o, run, step, k, m + 1, n); }
  }

  /** A message that waits is published some time. */
  lemma {:induction false} PublishedLater(wf: Workflow, exec: string, registered: set<string>, o: Outcomes,
      run: nat -> Network, step: nat -> Step, i: nat, p: nat, m: nat, k: nat) returns (j: nat)
    requires FairRun(wf, exec, registered, o, run, step) && Stays(run, p, i) && p <= m && IsUnsent(run(m), i, k)
    ensures m <= j && step(j) == Publish(k) && IsUnsent(run(j), i, k)
  {
    hide InOrder, Next, Needed, Definition, PendingRegistered, IsEnd, Orderly;
    if n: nat :| m <= n && k in run(n).sent {
      j := SentByPublishing(wf, o, run, step, k, m, n);
    } else {
      forall x: nat ensures PossibleLater(wf, run, Publish(k), x) {
        var n := if x < m then m else x;
        RunInOrder(wf, exec, registered, o, run, step, n);
        WaitingIsPossible(wf, o, run(n), k);
        assert Possible(wf, run(n), Publish(k));
      }
      assert FairTo(wf, run, step, Publish(k));
      assert TakenLater(step, Publish(k), m);
      j :| m <= j && step(j) == Publish(k);
    }
  }

  lemma {:induction false} WaitingIsPossible(wf: Workflow, o: Outcomes, w: Network, k: nat)
    requires InOrder(wf, o, w) && k < |w.t.outbox| && k !in w.sent
    ensures Possible(wf, w, Publish(k))
  {
    hide NothingLost, Reached, ResultsAgree, Sound;
  }

  /** The task of a pending row leaves the outbox. */
  lemma {:induction false} LeavesOutbox(wf: Workflow, exec: string, registered: set<string>, o: Outcomes,
      run: nat -> Network, step: nat -> Step, i: nat, p: nat, m: nat)
    requires FairRun(wf, exec, registered, o, run, step) && Stays(run, p, i) && p <= m
    ensures Within(o, run, i, 5, m)
  {
    hide Possible, Distance, Next, Needed, Definition, PendingRegistered, Fair, IsEnd, Kept, Reached, InFlight;
    RunInOrder(wf, exec, registered, o, run, step, m);
    InOrderPending(wf, o, run(m));
    assert OnItsWay(run(m), i);
    if InFlight(run(m).tokens, i) {
      SomeToken(o, run(m).tokens, i);
    } else {
      var k :| IsUnsent(run(m), i, k);
      var j := PublishedLater(wf, exec, registered, o, run, step, i, p, m, k);
      RunInOrder(wf, exec, registered, o, run, step, j);
      InOrderPending(wf, o, run(j));
      Registered(run(j), i);
      PublishBringsCloser(wf, o, run(j), i, k);
      assert Distance(o, run(j + 1).tokens, i) <= 5;
    }
  }

  /** So it comes as near as it can, again and again. */
  lemma {:induction false} Arrives(wf: Workflow, exec: string, registered: set<string>, o: Outcomes,
      run: nat -> Network, step: nat -> Step, i: nat, d: nat, p: nat, m: nat)
    requires FairRun(wf, exec, registered, o, run, step) && Stays(run, p, i) && 1 <= d <= 5 && p <= m
    ensures Within(o, run, i, d, m)
    decreases 5 - d
  {
    hide FairRun, Stays, Within;
    if d == 5 {
      LeavesOutbox(wf, exec, registered, o, run, step, i, p, m);
    } else {
      var further := d + 1;
      forall k: nat | p <= k ensures Within(o, run, i, further, k) {
        Arrives(wf, exec, registered, o, run, step, i, further, p, k);
      }
      Nearer(wf, exec, registered, o, run, step, i, further, p, m);
    }
  }

  lemma {:induction false} HandledAt(wf: Workflow, exec: string, registered: set<string>, o: Outcomes,
      run: nat -> Network, step: nat -> Step, n: nat)
    requires FairRun(wf, exec, registered, o, run, step) && !IsEnd(run(n).t.status) && run(n).t.rows != []
    requires var i := |run(n).t.rows| - 1; step(n) == HandleResult(i, o(i))
    ensures run(n + 1).t != run(n).t
  {
    hide Possible, Next, Needed, Definition, PendingRegistered, InOrder, IsEnd, Orderly, Fair, DeliverLast;
    RunInOrder(wf, exec, registered, o, run, step, n);
    TablesStep(wf, o, run(n), step(n));
    DeliveryChanges(wf, o, run(n));
  }

  /** A pending row does not stay pending. */
  lemma {:induction false} NothingStays(wf: Workflow, exec: string, registered: set<string>, o: Outcomes,
      run: nat -> Network, step: nat -> Step, i: nat, p: nat)
    requires FairRun(wf, exec, registered, o, run, step)
    ensures !Stays(run, p, i)
  {
    hide Distance, Needed, Definition, IsRun, IsEnd, Fair;
    if Stays(run, p, i) {
      forall k: nat | p <= k ensures Within(o, run, i, 1, k) {
        Arrives(wf, exec, registered, o, run, step, i, 1, p, k);
      }
      NeverAtZero(o, run, i, p);
      ServedLater(wf, o, run, step, i, 1, p, p);
      var n: nat :| p <= n && step(n) == Serving(o, i, 1);
      HandledAt(wf, exec, registered, o, run, step, n);
    }
  }

  lemma {:induction false} NeverAtZero(o: Outcomes, run: nat -> Network, i: nat, m: nat)
    ensures !Within(o, run, i, 0, m)
  {
  }

  lemma {:induction false} DeliveryChanges(wf: Workflow, o: Outcomes, w: Network)
    requires Definition(wf) && InOrder(wf, o, w) && !IsEnd(w.t.status)
    ensures Rank(wf, DeliverLast(wf, o, w.t)) < Rank(wf, w.t) && Rank(wf, w.t) > 0
    ensures DeliverLast(wf, o, w.t) != w.t
  {
    hide Kept, NothingLost, ResultsAgree, Rank, DeliverLast, Definition, IsEnd;
    LastDelivery(wf, o, w.t);
  }

  /** The tables stay as they are, or there is a first time that they change. */
  lemma {:induction false} FirstChange(run: nat -> Network, p: nat, n: nat) returns (j: nat)
    requires p <= n && run(n).t != run(p).t
    ensures p <= j < n && run(j).t == run(p).t && run(j + 1).t != run(p).t
  {
    if run(n - 1).t != run(p).t { j := FirstChange(run, p, n - 1); } else { j := n - 1; }
  }

  /**
   * Fair runs end: from whatever moment on, the execution comes to an end, in COMPLETED, COMPENSATED or FAILED,
   * also after any number of retries by hand.
   */
  lemma {:induction false} FairRunsEnd(wf: Workflow, exec: string, registered: set<string>, o: Outcomes,
      run: nat -> Network, step: nat -> Step, p: nat)
    requires FairRun(wf, exec, registered, o, run, step)
    ensures exists n: nat :: p <= n && IsEnd(run(n).t.status)
    decreases Rank(wf, run(p).t)
  {
    hide FairRun, InOrder, Next, Needed, Definition, PendingRegistered, IsEnd, Orderly, DeliverLast, Rank;
    if !IsEnd(run(p).t.status) {
      RunInOrder(wf, exec, registered, o, run, step, p);
      FairIsSensible(wf, exec, registered, o, run, step);
      InOrderPending(wf, o, run(p));
      var i := |run(p).t.rows| - 1;
      NothingStays(wf, exec, registered, o, run, step, i, p);
      var n: nat :| p <= n && run(n).t != run(p).t;
      var j := FirstChange(run, p, n);
      RunInOrder(wf, exec, registered, o, run, step, j);
      TablesStep(wf, o, run(j), step(j));
      DeliveryChanges(wf, o, run(j));
      FairRunsEnd(wf, exec, registered, o, run, step, j + 1);
    }
  }

  lemma {:induction false} FairIsSensible(wf: Workflow, exec: string, registered: set<string>, o: Outcomes,
      run: nat -> Network, step: nat -> Step)
    requires FairRun(wf, exec, registered, o, run, step)
    ensures Definition(wf)
  {
  }

  /** Without retries by hand it ends once, and its tables never change again. */
  lemma {:induction false} FairRunsStop(wf: Workflow, exec: string, registered: set<string>, o: Outcomes,
      run: nat -> Network, step: nat -> Step)
    requires FairRun(wf, exec, registered, o, run, step) && forall n: nat :: !step(n).Retry?
    ensures exists n: nat :: IsEnd(run(n).t.status) && forall k: nat :: n <= k ==> run(k).t == run(n).t
  {
    hide FairRun, IsEnd;
    FairRunsEnd(wf, exec, registered, o, run, step, 0);
    var n: nat :| 0 <= n && IsEnd(run(n).t.status);
    forall k: nat | n <= k ensures run(k).t == run(n).t {
      EndStays(wf, exec, registered, o, run, step, n, k);
    }
  }

  lemma {:induction false} EndStays(wf: Workflow, exec: string, registered: set<string>, o: Outcomes,
      run: nat -> Network, step: nat -> Step, n: nat, k: nat)
    requires FairRun(wf, exec, registered, o, run, step) && forall n: nat :: !step(n).Retry?
    requires IsEnd(run(n).t.status) && n <= k
    ensures run(k).t == run(n).t
  {
    hide FairRun, InOrder, Next, Needed, Definition, PendingRegistered, IsEnd, Orderly, DeliverLast;
    if n < k {
      EndStays(wf, exec, registered, o, run, step, n, k - 1);
      FairIsSensible(wf, exec, registered, o, run, step);
      RunInOrder(wf, exec, registered, o, run, step, k - 1);
      TablesStep(wf, o, run(k - 1), step(k - 1));
    }
  }

  /******* One step put off for ever is enough *******/

  /** The first task is published and deleted; then a worker takes it and gives it back, and so on. */
  function Tossing(n: nat): Step {
    if n == 0 then Publish(0) else if n == 1 then Delete(0) else if n % 2 == 0 then Take(0) else Requeue(0)
  }

  ghost function Tossed(exec: string, wf: Workflow, registered: set<string>, n: nat): Network {
    Network(Create(exec, wf), registered,
            if n == 0 then {} else {0},
            if n <= 1 then {} else {0},
            if n == 0 then multiset{} else if n == 1 || n % 2 == 0 then multiset{Queued(0)} else multiset{Taken(0)})
  }

  lemma {:induction false} FirstTosses(wf: Workflow, exec: string, registered: set<string>, n: nat)
    requires wf != [] && wf[0].name in registered && n < 2
    ensures Possible(wf, Tossed(exec, wf, registered, n), Tossing(n))
    ensures Tossed(exec, wf, registered, n + 1) == Next(wf, Tossed(exec, wf, registered, n), Tossing(n))
  {
    hide Create, Routed, Handle, HandleCrashed, Commit, Lawful;
    FirstTask(exec, wf);
    RoutedByTier(registered, Tossed(exec, wf, registered, n).t.outbox[0]);
  }

  lemma {:induction false} OtherTosses(wf: Workflow, exec: string, registered: set<string>, n: nat)
    requires n >= 2
    ensures Possible(wf, Tossed(exec, wf, registered, n), Tossing(n))
    ensures Tossed(exec, wf, registered, n + 1) == Next(wf, Tossed(exec, wf, registered, n), Tossing(n))
  {
    hide Create, Handle, HandleCrashed, Commit, Lawful;
    assert multiset{Queued(0)} - multiset{Queued(0)} == multiset{};
    assert multiset{Taken(0)} - multiset{Taken(0)} == multiset{};
  }

  lemma {:induction false} TossStep(wf: Workflow, exec: string, registered: set<string>, o: Outcomes, n: nat)
    requires wf != [] && wf[0].name in registered
    ensures Orderly(wf, o, Tossed(exec, wf, registered, n), Tossing(n))
    ensures Tossed(exec, wf, registered, n + 1) == Next(wf, Tossed(exec, wf, registered, n), Tossing(n))
  {
    hide Possible, Tossed, Next;
    if n < 2 { FirstTosses(wf, exec, registered, n); } else { OtherTosses(wf, exec, registered, n); }
  }

  lemma {:induction false} TossPossible(wf: Workflow, exec: string, registered: set<string>, o: Outcomes, s: Step,
      n: nat)
    requires wf != [] && Serves(o, s) && s != Report(0, o(0)) && n >= 2
    requires Possible(wf, Tossed(exec, wf, registered, n), s)
    ensures s == Take(0)
  {
    hide Handle, HandleCrashed, Commit, Lawful;
    FirstTask(exec, wf);
  }

  lemma {:induction false} TakenAgain(m: nat)
    ensures TakenLater(Tossing, Take(0), m)
  {
    var n := 2 * m + 2;
    assert m <= n && Tossing(n) == Take(0);
  }

  /**
   * Fairness cannot be had for less: in this run every step is fair but that of the worker that never gets to report,
   * and the execution never ends.
   */
  lemma {:induction false} ReportPutOff(wf: Workflow, exec: string, registered: set<string>, o: Outcomes)
    requires wf != [] && wf[0].name in registered
    ensures var run := (n: nat) => Tossed(exec, wf, registered, n);
            && IsRun(wf, exec, registered, o, run, Tossing)
            && (forall s | Serves(o, s) && s != Report(0, o(0)) :: FairTo(wf, run, Tossing, s))
            && forall n: nat :: !IsEnd(run(n).t.status)
  {
    hide Create, Possible, Serves, Tossing, Orderly, Next;
    var run := (n: nat) => Tossed(exec, wf, registered, n);
    FirstTask(exec, wf);
    forall n: nat ensures StepAt(wf, o, run, Tossing, n) { TossStep(wf, exec, registered, o, n); }
    forall s | Serves(o, s) && s != Report(0, o(0)) ensures FairTo(wf, run, Tossing, s) {
      if forall m: nat :: PossibleLater(wf, run, s, m) {
        assert PossibleLater(wf, run, s, 2);
        var n: nat :| 2 <= n && Possible(wf, run(n), s);
        TossPossible(wf, exec, registered, o, s, n);
        forall m: nat ensures TakenLater(Tossing, s, m) { TakenAgain(m); }
      }
    }
    forall n: nat ensures !IsEnd(run(n).t.status) { StillRunning(exec, wf); }
  }

  lemma {:induction false} StillRunning(exec: string, wf: Workflow)
    requires wf != []
    ensures !IsEnd(Create(exec, wf).status)
  {
  }
}
