/**
 * Names that activities and compensations share: over whole runs, the engine stays in its saga if and only if no
 * compensation that can come up is called like an activity, and no attempt limit is above 64.
 */
module Names {
  import opened Models
  import opened Compensation
  import opened Tables
  import opened Adversary
  import opened Saga
  import opened Refinement
  import opened SagaTheorems
  import opened Boundaries
  import opened Crashes
  import opened Progress
  import opened Registration

  /******* The definition without its shared names *******/

  /** The definition with every compensation removed that is called like an activity. */
  function Blanked(wf: Workflow): (wf': Workflow)
    ensures |wf'| == |wf|
  {
    seq(|wf|, i requires 0 <= i < |wf| =>
      if IsForward(wf, wf[i].compensation) then wf[i].(compensation := "") else wf[i])
  }

  lemma {:induction false} BlankedNames(wf: Workflow, name: string)
    ensures PositionOf(Blanked(wf), name) == PositionOf(wf, name)
    ensures name != "" && !IsForward(wf, name) ==> CompensatorOf(Blanked(wf), name) == CompensatorOf(wf, name)
  {
    var wf' := Blanked(wf);
    var a, b := PositionOf(wf', name), PositionOf(wf, name);
    assert forall i | 0 <= i < |wf| :: wf'[i].name == wf[i].name;
    assert a.Some? ==> wf[a.value].name == name;
    assert b.Some? ==> wf'[b.value].name == name;
    if name != "" && !IsForward(wf, name) {
      assert forall i | 0 <= i < |wf| :: wf'[i].compensation == name <==> wf[i].compensation == name;
      var c, d := CompensatorOf(wf', name), CompensatorOf(wf, name);
      assert c.Some? ==> wf[c.value].compensation == name;
      assert d.Some? ==> wf'[d.value].compensation == name;
    }
  }

  lemma {:induction false} BlankedIsSensible(wf: Workflow)
    requires wf != [] && DistinctNames(wf)
    ensures Sensible(Blanked(wf))
  {
    hide PositionOf;
    var wf' := Blanked(wf);
    forall i, j | 0 <= i < |wf'| - 1 && 0 <= j < |wf'| && wf'[i].compensation != ""
      ensures wf'[i].compensation != wf'[j].name
    {
      assert wf'[i] == wf[i] && !IsForward(wf, wf[i].compensation) && wf'[j].name == wf[j].name;
    }
  }

  /** Names that are no shared ones have the same policy in both. */
  lemma {:induction false} SamePolicy(wf: Workflow, r: ActivityRow, nonRetryable: bool)
    requires r.name != "" || IsForward(wf, r.name)
    ensures RetriesLeft(Blanked(wf), r, nonRetryable) == RetriesLeft(wf, r, nonRetryable)
    ensures PolicyOf(Blanked(wf), r.name).Some? == PolicyOf(wf, r.name).Some?
  {
    hide PositionOf, CompensatorOf;
    BlankedNames(wf, r.name);
  }

  /** The lookup is the same in both, or comes to a shared name. */
  lemma {:induction false} SameOrShared(wf: Workflow, k: nat, done: set<string>)
    requires k <= |wf|
    ensures var next := FirstNotIn(UndoPlan(wf, k), done);
            next == FirstNotIn(UndoPlan(Blanked(wf), k), done) || (next.Some? && IsForward(wf, next.value))
  {
    hide UndoPlan, FirstNotIn, IsForward;
    if k == 0 {
      assert UndoPlan(wf, 0) == UndoPlan(Blanked(wf), 0) by { NothingPlanned(wf); }
    } else {
      PlanStep(wf, k, done);
      PlanStep(Blanked(wf), k, done);
      SameOrShared(wf, k - 1, done);
    }
  }

  lemma {:induction false} NothingPlanned(wf: Workflow)
    ensures UndoPlan(wf, 0) == UndoPlan(Blanked(wf), 0)
  {
  }

  /** A shared name among the first `k` activities is found, whatever else is done. */
  lemma {:induction false} SharedIsDue(wf: Workflow, k: nat, i: nat, done: set<string>)
    requires i < k <= |wf| && wf[i].compensation != "" && wf[i].compensation !in done
    ensures FirstNotIn(UndoPlan(wf, k), done).Some?
    decreases k
  {
    hide UndoPlan, FirstNotIn;
    PlanStep(wf, k, done);
    if i < k - 1 { SharedIsDue(wf, k - 1, i, done); }
  }

  lemma {:induction false} SameForwardRows(wf: Workflow, rows: seq<ActivityRow>)
    ensures CompletedNames(wf, rows) == CompletedNames(Blanked(wf), rows)
  {
    hide PositionOf;
    if rows != [] {
      BlankedNames(wf, rows[|rows| - 1].name);
      SameForwardRows(wf, rows[..|rows| - 1]);
    }
  }

  lemma {:induction false} SameDone(wf: Workflow, rows: seq<ActivityRow>)
    ensures CompletedComps(wf, rows) == CompletedComps(Blanked(wf), rows)
  {
    hide PositionOf, Blanked;
    forall r | r in rows ensures IsForward(wf, r.name) == IsForward(Blanked(wf), r.name) {
      BlankedNames(wf, r.name);
    }
  }

  lemma {:induction false} SameForwardNames(wf: Workflow, k: nat)
    requires k <= |wf|
    ensures ForwardNames(wf, k) == ForwardNames(Blanked(wf), k)
  {
    if k > 0 { SameForwardNames(wf, k - 1); }
  }

  /** On rows that the blanked definition's saga wrote, the engine's lookup finds the same, or a shared name. */
  lemma {:induction false} LookupOnLedger(wf: Workflow, t: Tables)
    requires wf != [] && DistinctNames(wf) && Replay(Blanked(wf), t.rows).Some?
    requires Sound(t) && CompletedInOrder(t.rows)
    ensures var k, next := Done(Blanked(wf), Replay(Blanked(wf), t.rows).value), NextCompensation(wf, t.rows);
            && k <= |wf|
            && (next == NextCompensation(Blanked(wf), t.rows) || (next.Some? && IsForward(wf, next.value)))
            && ((exists i :: 0 <= i < k && wf[i].compensation != "" && IsForward(wf, wf[i].compensation)) ==>
                  next.Some?)
  {
    hide UndoPlan, IsForward, Blanked, ForwardNames, CompletedNames, CompletedComps, Listing, LastAwaiting, FirstNotIn,
         Replay;
    var wf' := Blanked(wf);
    var k, done := Done(wf', Replay(wf', t.rows).value), CompletedComps(wf, t.rows);
    BlankedIsSensible(wf);
    LedgerForward(wf', t.rows);
    SameForwardRows(wf, t.rows);
    SameForwardNames(wf, k);
    SameDone(wf, t.rows);
    TableOrderAgrees(wf, t.rows);
    TableOrderAgrees(wf', t.rows);
    ScanFollowsPlan(wf, t.rows, k, done);
    ScanFollowsPlan(wf', t.rows, k, done);
    SameOrShared(wf, k, done);
    if i :| 0 <= i < k && wf[i].compensation != "" && IsForward(wf, wf[i].compensation) {
      NotDone(wf, t.rows, wf[i].compensation);
      SharedIsDue(wf, k, i, done);
    }
  }

  lemma {:induction false} NotDone(wf: Workflow, rows: seq<ActivityRow>, name: string)
    requires IsForward(wf, name)
    ensures name !in CompletedComps(wf, rows)
  {
  }

  /******* A run that comes to a shared name *******/

  /** The awaited result of step `m` of the path. */
  function PathCall(wf: Workflow, m: nat): Call
    requires wf != []
  {
    CallOf(PathOutcomes(wf), Deliver(m))
  }

  /** Every activity come to has the row of its first attempt. */
  ghost predicate FirstAttempts(wf: Workflow, rows: seq<ActivityRow>) {
    forall j | 0 <= j < |wf| && j < |rows| :: rows[j].name == wf[j].name && rows[j].attempt == 1
  }

  ghost predicate OnPath(wf: Workflow, t: Tables, m: nat)
    requires wf != []
  {
    var wf' := Blanked(wf);
    m < |Path(wf')| && AtPath(wf', t, m) && Agrees(t, PathOutcomes(wf')) && FirstAttempts(wf, t.rows)
  }

  /** The decision after the first transaction, when a lookup is needed for it. */
  lemma {:induction false} LookupDecides(wf: Workflow, before: ExecutionStatus, t1: Tables, call: Call)
    requires IsReport(call) && call.id < |t1.rows|
    requires call.ReportSuccess? ==> t1.status == Compensating
    requires call.ReportFailure? ==> !RetriesLeft(wf, t1.rows[call.id], call.nonRetryable)
    requires call.ReportFailure? ==> before != Compensating
    ensures var next := NextCompensation(wf, t1.rows);
            Second(wf, before, t1, call) ==
            if next.Some? then Do(StartCompensating(next.value, 1, false))
            else if call.ReportSuccess? then Do(CompensatedExecution) else Do(FailExecution(t1.rows[call.id].name))
  {
    hide NextCompensation, RetriesLeft;
  }

  lemma {:induction false} ForwardDecides(wf: Workflow, before: ExecutionStatus, t1: Tables, id: nat)
    requires id < |t1.rows| && t1.status == Running
    ensures Second(Blanked(wf), before, t1, ReportSuccess(id)) == Second(wf, before, t1, ReportSuccess(id))
  {
    hide PositionOf, NextCompensation;
    BlankedNames(wf, t1.rows[id].name);
  }

  lemma {:induction false} SameFirst(wf: Workflow, t: Tables, call: Call)
    requires IsReport(call) && call.id < |t.rows| && (t.rows[call.id].name != "" || IsForward(wf, t.rows[call.id].name))
    ensures First(Blanked(wf), t, call) == First(wf, t, call)
  {
    hide RetriesLeft, PolicyOf;
    if call.ReportFailure? { SamePolicy(wf, t.rows[call.id], call.nonRetryable); }
  }

  lemma {:induction false} SameHandle(wf: Workflow, t: Tables, call: Call)
    requires First(Blanked(wf), t, call) == First(wf, t, call)
    requires First(wf, t, call).Do? && Commit(t, First(wf, t, call).tx).ok ==>
               var t1 := Commit(t, First(wf, t, call).tx).t;
               Second(Blanked(wf), t.status, t1, call) == Second(wf, t.status, t1, call)
    ensures Handle(Blanked(wf), t, call) == Handle(wf, t, call)
  {
    hide First, Second, Commit, Blanked;
  }

  /** Starting a compensation that is called like an activity is refused: the activity has that row. */
  lemma {:induction false} SharedIsRefused(wf: Workflow, t1: Tables, c: string)
    requires Sound(t1) && FirstAttempts(wf, t1.rows) && |t1.rows| >= |wf| && IsForward(wf, c)
    ensures Commit(t1, StartCompensating(c, 1, false)) == Reply(t1, false)
  {
    var j := PositionOf(wf, c).value;
    assert t1.rows[j].name == c && t1.rows[j].attempt == 1;
    assert HasRow(t1.rows, c, 1);
    RefusedLaunch(t1, StartCompensating(c, 1, false));
  }

  /** A name on the path is an activity's or that of a compensation there is. */
  lemma {:induction false} PathNames(wf: Workflow, t: Tables, m: nat)
    requires wf != [] && DistinctNames(wf) && OnPath(wf, t, m)
    ensures IsPending(t, m) && |t.rows| == m + 1 && Awaited(Blanked(wf), t, m)
    ensures t.rows[m].name != "" || IsForward(wf, t.rows[m].name)
    ensures t.status == if m < |wf| then Running else Compensating
  {
    hide Refines, State, PositionOf, Blanked, UndoPlan, Path;
    var wf' := Blanked(wf);
    PathName(wf', t, m);
    RefinesFacts(wf', t);
    assert State(wf', t) == PathState(wf', m) && |t.rows| == m + 1;
    BlankedIsSensible(wf);
    DoingKind(wf', State(wf', t));
    BlankedNames(wf, t.rows[m].name);
    if m >= |wf| {
      UndoPlanMembers(wf', |wf| - 1);
      assert t.rows[m].name in UndoPlan(wf', |wf| - 1);
    }
  }

  /** What the first transaction of step `m` leaves: a settled ledger of the blanked definition, still going on. */
  lemma {:induction false} PathSettles(wf: Workflow, t: Tables, m: nat) returns (tx: Tx, s': Saga)
    requires wf != [] && DistinctNames(wf) && OnPath(wf, t, m)
    ensures var wf', call := Blanked(wf), PathCall(Blanked(wf), m);
            && CutAfter(wf', t, tx, s') && tx.id == m && s' == Ideal(wf', PathState(wf', m), PathOutcomes(wf')(m))
            && IsReport(call) && call.id == m && First(wf', t, call) == Do(tx) && First(wf, t, call) == Do(tx)
  {
    hide Refines, State, Blanked, UndoPlan, Path, First, CutAfter;
    var wf' := Blanked(wf);
    BlankedIsSensible(wf);
    PathNames(wf, t, m);
    tx, s' := CutOffSettles(wf', t, PathOutcomes(wf'), m);
    SameFirst(wf, t, PathCall(wf', m));
  }

  lemma {:induction false} SharedBefore(wf: Workflow)
    requires !CompensationsApart(wf)
    ensures exists i :: 0 <= i < |wf| - 1 && wf[i].compensation != "" && IsForward(wf, wf[i].compensation)
  {
    var i, j :| 0 <= i < |wf| - 1 && 0 <= j < |wf| && wf[i].compensation != "" && wf[i].compensation == wf[j].name;
    assert PositionOf(wf, wf[i].compensation).Some?;
  }

  /** Going forward is the same in both definitions. */
  lemma {:induction false} ForwardSame(wf: Workflow, t: Tables, m: nat)
    requires wf != [] && DistinctNames(wf) && OnPath(wf, t, m) && m < |wf| - 1
    ensures Handle(Blanked(wf), t, PathCall(Blanked(wf), m)) == Handle(wf, t, PathCall(Blanked(wf), m))
  {
    hide Refines, State, Blanked, UndoPlan, Path, First, Second, Commit, OnPath;
    var tx, s' := PathSettles(wf, t, m);
    PathNames(wf, t, m);
    BlankedIsSensible(wf);
    CutFacts(Blanked(wf), t, tx, s');
    CutStatus(Blanked(wf), t, tx, s');
    ForwardDecides(wf, t.status, Commit(t, tx).t, m);
    SameHandle(wf, t, PathCall(Blanked(wf), m));
  }

  lemma {:induction false} CutStatus(wf: Workflow, t: Tables, tx: Tx, s': Saga)
    requires CutAfter(wf, t, tx, s')
    ensures Commit(t, tx).t.status == t.status && Commit(t, tx).ok
    ensures |Commit(t, tx).t.rows| == |t.rows|
    ensures forall i | 0 <= i < |t.rows| ::
              var r := Commit(t, tx).t.rows[i]; r.name == t.rows[i].name && r.attempt == t.rows[i].attempt
  {
    hide Refines, State, UndoPlan;
  }

  /** The decision that a lookup with the answer `next` leads to. */
  function Decided(next: Option<string>, call: Call, name: string): Decision {
    if next.Some? then Do(StartCompensating(next.value, 1, false))
    else if call.ReportSuccess? then Do(CompensatedExecution) else Do(FailExecution(name))
  }

  /** Where a lookup decides, it answers the same in both or with a shared name, at the latest at the end. */
  lemma {:induction false} LookupFacts(wf: Workflow, t: Tables, m: nat, tx: Tx, s': Saga)
    requires wf != [] && DistinctNames(wf) && !CompensationsApart(wf) && OnPath(wf, t, m) && m >= |wf| - 1
    requires CutAfter(Blanked(wf), t, tx, s') && tx.id == m
    requires s' == Ideal(Blanked(wf), PathState(Blanked(wf), m), PathOutcomes(Blanked(wf))(m))
    ensures var t1, wf' := Commit(t, tx).t, Blanked(wf);
            var next, next' := NextCompensation(wf, t1.rows), NextCompensation(wf', t1.rows);
            && (next == next' || (next.Some? && IsForward(wf, next.value)))
            && (m + 1 == |Path(wf')| ==> next != next')
  {
    hide Refines, State, Blanked, UndoPlan, Commit, OnPath, NextCompensation, IsForward, SettledInto, Settles, Path,
         Sound, CompletedInOrder, Replay, CompensationsApart, DistinctNames, PathState;
    BlankedIsSensible(wf);
    PathLengthIs(wf, t, m);
    CutFacts(Blanked(wf), t, tx, s');
    LookupOnLedger(wf, Commit(t, tx).t);
    SharedBefore(wf);
    PathStateIsActive(wf, m);
    LookupAtEnd(wf, t, Commit(t, tx).t, s', m);
  }

  lemma {:induction false} BothDecide(wf: Workflow, t: Tables, m: nat, tx: Tx, s': Saga)
    requires wf != [] && DistinctNames(wf) && OnPath(wf, t, m) && m >= |wf| - 1
    requires CutAfter(Blanked(wf), t, tx, s') && tx.id == m
    ensures var t1, wf', call := Commit(t, tx).t, Blanked(wf), PathCall(Blanked(wf), m);
            && m < |t1.rows|
            && Second(wf, t.status, t1, call) == Decided(NextCompensation(wf, t1.rows), call, t1.rows[m].name)
            && Second(wf', t.status, t1, call) == Decided(NextCompensation(wf', t1.rows), call, t1.rows[m].name)
  {
    hide Refines, State, Blanked, UndoPlan, First, Second, Commit, OnPath, NextCompensation, RetriesLeft, IsForward,
         SettledInto, Settles, Path;
    var t1, call := Commit(t, tx).t, PathCall(Blanked(wf), m);
    PathNames(wf, t, m);
    CutStatus(Blanked(wf), t, tx, s');
    NoRetriesOnPath(wf, t, t1, m);
    LookupDecides(wf, t.status, t1, call);
    LookupDecides(Blanked(wf), t.status, t1, call);
  }

  /** A shared name is refused, and strands the execution. */
  lemma {:induction false} SharedStrands(wf: Workflow, t: Tables, m: nat, tx: Tx, s': Saga)
    requires wf != [] && DistinctNames(wf) && OnPath(wf, t, m) && m >= |wf| - 1
    requires CutAfter(Blanked(wf), t, tx, s') && tx.id == m && First(wf, t, PathCall(Blanked(wf), m)) == Do(tx)
    requires var t1, call := Commit(t, tx).t, PathCall(Blanked(wf), m);
             var next := NextCompensation(wf, t1.rows);
             && next.Some? && IsForward(wf, next.value)
             && Second(wf, t.status, t1, call) == Do(StartCompensating(next.value, 1, false))
    ensures !Refines(wf, Handle(wf, t, PathCall(Blanked(wf), m)).t)
  {
    hide Refines, State, Blanked, UndoPlan, First, Second, Commit, OnPath, NextCompensation, IsForward, CutAfter,
         FirstAttempts, Path, Replay;
    var t1 := Commit(t, tx).t;
    BlankedIsSensible(wf);
    PathNames(wf, t, m);
    CutFacts(Blanked(wf), t, tx, s');
    CutStatus(Blanked(wf), t, tx, s');
    AttemptsStay(wf, t, t1, m);
    SharedIsRefused(wf, t1, NextCompensation(wf, t1.rows).value);
    LedgerIsSettled(Blanked(wf), t1.rows, m);
    NothingPendingIsOver(wf, t1);
    RefusedFollowUp(wf, t, PathCall(Blanked(wf), m));
  }

  /** So the handler does the same in both definitions, or is refused and strands the execution. */
  lemma {:induction false} LookupSame(wf: Workflow, t: Tables, m: nat)
    requires wf != [] && DistinctNames(wf) && !CompensationsApart(wf) && OnPath(wf, t, m) && m >= |wf| - 1
    ensures var call := PathCall(Blanked(wf), m);
            || !Refines(wf, Handle(wf, t, call).t)
            || (Handle(Blanked(wf), t, call) == Handle(wf, t, call) && m + 1 < |Path(Blanked(wf))|)
  {
    hide Refines, State, Blanked, UndoPlan, First, Second, Commit, OnPath, NextCompensation, IsForward, CutAfter, Path,
         PathState, Handle, CompensationsApart, DistinctNames;
    var tx, s' := PathSettles(wf, t, m);
    var t1 := Commit(t, tx).t;
    LookupFacts(wf, t, m, tx, s');
    BothDecide(wf, t, m, tx, s');
    if NextCompensation(wf, t1.rows) == NextCompensation(Blanked(wf), t1.rows) {
      SameHandle(wf, t, PathCall(Blanked(wf), m));
      PathLengthIs(wf, t, m);
    } else {
      SharedStrands(wf, t, m, tx, s');
    }
  }

  lemma {:induction false} PathLengthIs(wf: Workflow, t: Tables, m: nat)
    requires wf != [] && OnPath(wf, t, m)
    ensures m < |Path(Blanked(wf))|
  {
  }

  lemma {:induction false} AttemptsStay(wf: Workflow, t: Tables, t1: Tables, m: nat)
    requires wf != [] && |t.rows| == |t1.rows| && OnPath(wf, t, m)
    requires forall i | 0 <= i < |t.rows| ::
               t1.rows[i].name == t.rows[i].name && t1.rows[i].attempt == t.rows[i].attempt
    ensures FirstAttempts(wf, t1.rows)
  {
  }

  lemma {:induction false} RefusedFollowUp(wf: Workflow, t: Tables, call: Call)
    requires First(wf, t, call).Do? && Commit(t, First(wf, t, call).tx).ok
    requires var t1 := Commit(t, First(wf, t, call).tx).t;
             var d := Second(wf, t.status, t1, call); d.Do? && Commit(t1, d.tx) == Reply(t1, false)
    ensures Handle(wf, t, call).t == Commit(t, First(wf, t, call).tx).t
  {
    hide First, Second, Commit;
  }

  lemma {:induction false} NoRetriesOnPath(wf: Workflow, t: Tables, t1: Tables, m: nat)
    requires wf != [] && m < |t1.rows| && m >= |wf| - 1
    ensures var call := PathCall(Blanked(wf), m);
            call.ReportFailure? ==>
              && m == |wf| - 1 && !RetriesLeft(wf, t1.rows[m], call.nonRetryable)
              && !RetriesLeft(Blanked(wf), t1.rows[m], call.nonRetryable)
    ensures PathCall(Blanked(wf), m).ReportSuccess? ==> m >= |wf|
  {
    hide PolicyOf, Blanked;
  }

  lemma {:induction false} PathStateIsActive(wf: Workflow, m: nat)
    requires wf != [] && m < |Path(Blanked(wf))|
    ensures Valid(Blanked(wf), PathState(Blanked(wf), m)) && Active(PathState(Blanked(wf), m))
  {
    hide Blanked, UndoPlan;
  }

  /** Turned back, `|wf| - 1` activities are done; at the end of the path the blanked definition has nothing left. */
  lemma {:induction false} LookupAtEnd(wf: Workflow, t: Tables, t1: Tables, s': Saga, m: nat)
    requires wf != [] && DistinctNames(wf) && m >= |wf| - 1 && m < |Path(Blanked(wf))|
    requires SettledInto(Blanked(wf), t, t1, s')
    requires var s := PathState(Blanked(wf), m);
             Valid(Blanked(wf), s) && Active(s) && s' == Ideal(Blanked(wf), s, PathOutcomes(Blanked(wf))(m))
    ensures Done(Blanked(wf), s') == |wf| - 1
    ensures m + 1 == |Path(Blanked(wf))| ==> NextCompensation(Blanked(wf), t1.rows) == None
  {
    hide Refines, State, Blanked, UndoPlan, NextCompensation, SettledInto;
    BlankedIsSensible(wf);
    ScanAfterSettling(Blanked(wf), t, t1, s');
  }

  /** The blanked definition goes on along its path. */
  lemma {:induction false} PathGoes(wf: Workflow, t: Tables, m: nat)
    requires wf != [] && DistinctNames(wf) && OnPath(wf, t, m) && m + 1 < |Path(Blanked(wf))|
    ensures OnPath(wf, Handle(Blanked(wf), t, PathCall(Blanked(wf), m)).t, m + 1)
  {
    hide Refines, State, Blanked, UndoPlan, Path, Handle, Sound, Agrees;
    var wf', o := Blanked(wf), PathOutcomes(Blanked(wf));
    var call := PathCall(wf', m);
    BlankedIsSensible(wf);
    PathNames(wf, t, m);
    PathIdeal(wf', m);
    if m == |wf| - 1 { FailureStep(wf', t, true); } else { SuccessStep(wf', t); }
    ReportAddsRow(wf', t, call);
    DeliverySettles(wf', t, o, Deliver(m));
    var t' := Handle(wf', t, call).t;
    AtPathRow(wf, t', m + 1);
    forall j | 0 <= j < |wf| && j < |t'.rows| ensures t'.rows[j].name == wf[j].name && t'.rows[j].attempt == 1 {
      if j <= m { HandleKeepsNames(wf', t, call, j); }
    }
  }

  lemma {:induction false} AtPathRow(wf: Workflow, t: Tables, m: nat)
    requires wf != [] && m < |Path(Blanked(wf))| && AtPath(Blanked(wf), t, m)
    ensures |t.rows| == m + 1 && (m < |wf| ==> t.rows[m].name == wf[m].name && t.rows[m].attempt == 1)
  {
    hide Refines, State, UndoPlan, Sound;
    RefinesFacts(Blanked(wf), t);
    assert m < |wf| ==> Blanked(wf)[m].name == wf[m].name;
  }

  /** From every point of the path some later delivery takes the engine out of its saga. */
  lemma {:induction false} StrandsFrom(wf: Workflow, exec: string, t: Tables, m: nat) returns (n: nat)
    requires wf != [] && DistinctNames(wf) && !CompensationsApart(wf) && OnPath(wf, t, m)
    requires t == Run(wf, Create(exec, wf), PathOutcomes(Blanked(wf)), Upto(m))
    ensures !Refines(wf, Run(wf, Create(exec, wf), PathOutcomes(Blanked(wf)), Upto(n)))
    decreases |Path(Blanked(wf))| - m
  {
    hide Refines, Blanked, UndoPlan, Path, Handle, OnPath, Run, Create, DistinctNames, CompensationsApart;
    var wf', o := Blanked(wf), PathOutcomes(Blanked(wf));
    RunUpto(wf, Create(exec, wf), o, m + 1);
    PathLengthIs(wf, t, m);
    var t' := Act(wf, t, o, Deliver(m));
    if !Refines(wf, t') {
      n := m + 1;
    } else {
      NextOnPath(wf, t, m);
      n := StrandsFrom(wf, exec, t', m + 1);
    }
  }

  lemma {:induction false} NextOnPath(wf: Workflow, t: Tables, m: nat)
    requires wf != [] && DistinctNames(wf) && !CompensationsApart(wf) && OnPath(wf, t, m)
    requires Refines(wf, Act(wf, t, PathOutcomes(Blanked(wf)), Deliver(m)))
    ensures m + 1 < |Path(Blanked(wf))| && OnPath(wf, Act(wf, t, PathOutcomes(Blanked(wf)), Deliver(m)), m + 1)
  {
    hide Refines, Blanked, UndoPlan, Handle, OnPath, DistinctNames, CompensationsApart;
    if m < |wf| - 1 { ForwardSame(wf, t, m); } else { LookupSame(wf, t, m); }
    PathGoes(wf, t, m);
  }

  lemma {:induction false} PathBegins(wf: Workflow, exec: string)
    requires wf != [] && DistinctNames(wf)
    ensures OnPath(wf, Create(exec, wf), 0)
  {
    hide UndoPlan, Refines, State;
    var wf' := Blanked(wf);
    BlankedIsSensible(wf);
    StartAttempt(wf', exec, PathOutcomes(wf'));
    assert wf'[0].name == wf[0].name;
    assert Create(exec, wf') == Create(exec, wf);
  }

  /**
   * The exact condition, for all definitions with distinct names: all runs of deliveries stay in the saga if and only
   * if no compensation that can come up is called like an activity and no activity allows more than 64 attempts.
   */
  lemma {:induction false} StaysInSagaExactly(wf: Workflow, exec: string)
    requires wf != [] && DistinctNames(wf)
    ensures AlwaysRefines(wf, exec) <==> CompensationsApart(wf) && Backed(wf)
  {
    hide Refines, Run, Create, CompensationsApart, DistinctNames, Backed;
    if CompensationsApart(wf) {
      RefinesExactlyUpTo64(wf, exec);
    } else {
      PathBegins(wf, exec);
      EmptyUpto(wf, exec);
      var n := StrandsFrom(wf, exec, Create(exec, wf), 0);
      UptoDelivers(n);
    }
  }

  lemma {:induction false} EmptyUpto(wf: Workflow, exec: string)
    ensures forall o: Outcomes :: Run(wf, Create(exec, wf), o, Upto(0)) == Create(exec, wf)
  {
  }
}
