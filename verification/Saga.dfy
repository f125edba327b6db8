/**
 * The saga the engine is meant to run, as a small machine with a program counter, and the ledger: the
 * activity rows read as a run of that machine.
 */
module Saga {
  import opened Models
  import opened Compensation
  import opened Tables
  import opened Adversary

  /******* The ideal machine *******/

  /**
   * `k` activities have completed; `j` counts finished compensations in the undo plan of those `k`;
   * `a` is the attempt under way. The stuck states wait for an operator.
   */
  datatype Saga =
    | Forward(k: nat, a: Attempt)
    | Finished
    | Undo(k: nat, j: nat, a: Attempt)
    | Undone(k: nat)
    | StuckForward(k: nat, a: Attempt)
    | StuckUndo(k: nat, j: nat, a: Attempt)

  ghost predicate Valid(wf: Workflow, s: Saga) {
    match s
    case Forward(k, _) => k < |wf|
    case Finished => wf != []
    case Undo(k, j, _) => k < |wf| && j < |UndoPlan(wf, k)|
    case Undone(k) => k < |wf|
    case StuckForward(k, _) => k < |wf| && UndoPlan(wf, k) == []
    case StuckUndo(k, j, _) => k < |wf| && j < |UndoPlan(wf, k)|
  }

  predicate Active(s: Saga) {
    s.Forward? || s.Undo?
  }

  /** The activity or compensation being attempted. */
  function Doing(wf: Workflow, s: Saga): string
    requires Valid(wf, s) && Active(s)
  {
    match s
    case Forward(k, _) => wf[k].name
    case Undo(k, j, _) => UndoPlan(wf, k)[j]
  }

  function StatusOf(s: Saga): ExecutionStatus {
    match s
    case Forward(_, _) => Running
    case Finished => Completed
    case Undo(_, _, _) => Compensating
    case Undone(_) => Compensated
    case StuckForward(_, _) => Failed
    case StuckUndo(_, _, _) => Failed
  }

  function OnSuccess(wf: Workflow, s: Saga): (s': Saga)
    requires Valid(wf, s) && Active(s)
    ensures Valid(wf, s')
  {
    match s
    case Forward(k, _) => if k + 1 < |wf| then Forward(k + 1, 1) else Finished
    case Undo(k, j, _) => if j + 1 < |UndoPlan(wf, k)| then Undo(k, j + 1, 1) else Undone(k)
  }

  function OnRetry(s: Saga): Saga
    requires Active(s)
  {
    match s
    case Forward(k, a) => Forward(k, a + 1)
    case Undo(k, j, a) => Undo(k, j, a + 1)
  }

  /** The attempt failed for good: turn back, or give up when there is nothing to undo or undoing failed. */
  function OnGivingUp(wf: Workflow, s: Saga): (s': Saga)
    requires Valid(wf, s) && Active(s)
    ensures Valid(wf, s')
  {
    match s
    case Forward(k, a) => if UndoPlan(wf, k) == [] then StuckForward(k, a) else Undo(k, 0, 1)
    case Undo(k, j, a) => StuckUndo(k, j, a)
  }

  function Limit(wf: Workflow, name: string): nat {
    match PolicyOf(wf, name)
    case Some(act) => AttemptLimit(act)
    case None => 0
  }

  function OnFailure(wf: Workflow, s: Saga, nonRetryable: bool): Saga
    requires Valid(wf, s) && Active(s)
  {
    if s.a < Limit(wf, Doing(wf, s)) && !nonRetryable then OnRetry(s) else OnGivingUp(wf, s)
  }

  /** An operator retries what is stuck. */
  function Resume(s: Saga): Saga {
    match s
    case StuckForward(k, a) => Forward(k, a + 1)
    case StuckUndo(k, j, a) => Undo(k, j, a + 1)
    case _ => s
  }

  /******* Rows as a run of the machine *******/

  ghost predicate IsAttempt(wf: Workflow, s: Saga, r: ActivityRow) {
    Valid(wf, s) && Active(s) && r.name == Doing(wf, s) && r.attempt == s.a
  }

  /** Replays settled rows; `None` when they are not what the machine would have attempted, in its order. */
  ghost function Replay(wf: Workflow, rows: seq<ActivityRow>): (s: Option<Saga>)
    ensures s.Some? ==> Valid(wf, s.value)
  {
    if rows == [] then
      if wf == [] then None else Some(Forward(0, 1))
    else
      var r := rows[|rows| - 1];
      match Replay(wf, rows[..|rows| - 1])
      case None => None
      case Some(s0) =>
        var s := Resume(s0);
        if !IsAttempt(wf, s, r) then None
        else
          match r.status
          case RowPending => None
          case RowCompleted => Some(OnSuccess(wf, s))
          case RowFailed =>
            if r.deadLettered then Some(OnGivingUp(wf, s))
            else if s.a < Limit(wf, r.name) then Some(OnRetry(s))
            else None
  }

  /** Activities completed. */
  function Done(wf: Workflow, s: Saga): nat {
    match s
    case Finished => |wf|
    case Forward(k, _) => k
    case StuckForward(k, _) => k
    case Undo(k, _, _) => k
    case StuckUndo(k, _, _) => k
    case Undone(k) => k
  }

  /** Compensations with a settled row. */
  ghost function Tried(wf: Workflow, s: Saga): nat
    requires Valid(wf, s)
  {
    match s
    case Undo(_, j, a) => if a == 1 then j else j + 1
    case StuckUndo(_, j, _) => j + 1
    case Undone(k) => |UndoPlan(wf, k)|
    case _ => 0
  }

  /** Compensations completed. */
  ghost function Undid(wf: Workflow, s: Saga): nat
    requires Valid(wf, s)
  {
    match s
    case Undo(_, j, _) => j
    case StuckUndo(_, j, _) => j
    case Undone(k) => |UndoPlan(wf, k)|
    case _ => 0
  }

  ghost function Plan(wf: Workflow, s: Saga): seq<string>
    requires Valid(wf, s)
  {
    UndoPlan(wf, Done(wf, s))
  }

  /** The settled row `r` takes the machine from `s` to `s'`. */
  ghost predicate Takes(wf: Workflow, s: Saga, r: ActivityRow, s': Saga) {
    && IsAttempt(wf, s, r) && Settled(r) && Valid(wf, s')
    && (r.status == RowCompleted ==> s' == OnSuccess(wf, s))
    && (r.status == RowFailed ==> s' == OnRetry(s) || s' == OnGivingUp(wf, s))
  }

  /** Splits a replay into the state before its last row and that row. */
  lemma {:induction false} LastStep(wf: Workflow, rows: seq<ActivityRow>) returns (s: Saga)
    requires rows != [] && Replay(wf, rows).Some?
    ensures Replay(wf, rows[..|rows| - 1]).Some? && s == Resume(Replay(wf, rows[..|rows| - 1]).value)
    ensures Takes(wf, s, rows[|rows| - 1], Replay(wf, rows).value)
    ensures Done(wf, s) == Done(wf, Replay(wf, rows[..|rows| - 1]).value)
    ensures Tried(wf, s) == Tried(wf, Replay(wf, rows[..|rows| - 1]).value)
    ensures Undid(wf, s) == Undid(wf, Replay(wf, rows[..|rows| - 1]).value)
  {
    s := Resume(Replay(wf, rows[..|rows| - 1]).value);
  }

  lemma {:induction false} DoingKind(wf: Workflow, s: Saga)
    requires WellFormed(wf) && Valid(wf, s) && Active(s)
    ensures s.Forward? ==> PositionOf(wf, Doing(wf, s)) == Some(s.k)
    ensures s.Undo? ==> !IsForward(wf, Doing(wf, s))
    ensures PolicyOf(wf, Doing(wf, s)).Some?
  {
    if s.Forward? {
      PositionOfName(wf, s.k);
    } else {
      PlanEntriesAreNotForward(wf, s.k);
      UndoPlanMembers(wf, s.k);
      assert Doing(wf, s) in UndoPlan(wf, s.k);
    }
  }

  /** A row moves the counters by what it settled. */
  lemma {:induction false} CountersMove(wf: Workflow, s: Saga, r: ActivityRow, s': Saga)
    requires WellFormed(wf) && Takes(wf, s, r, s')
    ensures IsForward(wf, r.name) <==> s.Forward?
    ensures s.Forward? && r.status == RowCompleted ==>
              Done(wf, s') == Done(wf, s) + 1 <= |wf| && wf[Done(wf, s)].name == r.name
    ensures !(s.Forward? && r.status == RowCompleted) ==> Done(wf, s') == Done(wf, s)
    ensures s.Forward? ==> Tried(wf, s) == Tried(wf, s') == Undid(wf, s) == Undid(wf, s') == 0
    ensures s.Undo? ==> s.j < |Plan(wf, s)| && Plan(wf, s)[s.j] == r.name && Tried(wf, s') == s.j + 1
    ensures s.Undo? ==> Undid(wf, s) == s.j && Undid(wf, s') == if r.status == RowCompleted then s.j + 1 else s.j
  {
    DoingKind(wf, s);
  }

  lemma {:induction false} NamesMove(wf: Workflow, rows: seq<ActivityRow>, k: nat, k': nat, forward: bool)
    requires rows != [] && k <= |wf| && k' <= |wf|
    requires CompletedNames(wf, rows[..|rows| - 1]) == ForwardNames(wf, k)
    requires var r := rows[|rows| - 1];
             && IsForward(wf, r.name) == forward
             && (if forward && r.status == RowCompleted then k' == k + 1 && wf[k].name == r.name else k' == k)
    ensures CompletedNames(wf, rows) == ForwardNames(wf, k')
  {
  }

  /** The completed forward rows are the first activities of the definition, in order, one each. */
  lemma {:induction false} LedgerForward(wf: Workflow, rows: seq<ActivityRow>)
    requires WellFormed(wf) && Replay(wf, rows).Some?
    ensures Done(wf, Replay(wf, rows).value) <= |wf|
    ensures CompletedNames(wf, rows) == ForwardNames(wf, Done(wf, Replay(wf, rows).value))
  {
    if rows != [] {
      var s := LastStep(wf, rows);
      LedgerForward(wf, rows[..|rows| - 1]);
      var s' := Replay(wf, rows).value;
      CountersMove(wf, s, rows[|rows| - 1], s');
      NamesMove(wf, rows, Done(wf, s), Done(wf, s'), s.Forward?);
    }
  }

  ghost function Firsts(s: seq<string>, n: nat): set<string>
    requires n <= |s|
  {
    set c | c in s[..n]
  }

  lemma {:induction false} FirstsStep(s: seq<string>, n: nat)
    requires n < |s|
    ensures Firsts(s, n + 1) == Firsts(s, n) + {s[n]}
  {
  }

  lemma {:induction false} CompsMove(wf: Workflow, s: Saga, r: ActivityRow, s': Saga)
    requires WellFormed(wf) && Takes(wf, s, r, s')
    ensures Tried(wf, s') <= |Plan(wf, s')|
    ensures Tried(wf, s) <= |Plan(wf, s)| ==>
              Firsts(Plan(wf, s'), Tried(wf, s')) ==
              Firsts(Plan(wf, s), Tried(wf, s)) + if IsForward(wf, r.name) then {} else {r.name}
  {
    CountersMove(wf, s, r, s');
    if s.Undo? {
      FirstsStep(Plan(wf, s), s.j);
    }
  }

  lemma {:induction false} CompsAppend(wf: Workflow, acts: seq<ActivityRow>, r: ActivityRow)
    ensures CompletedComps(wf, acts + [r]) ==
            CompletedComps(wf, acts) + if Settled(r) && !IsForward(wf, r.name) then {r.name} else {}
  {
  }

  /** The settled compensations are a prefix of the undo plan. */
  lemma {:induction false} LedgerComps(wf: Workflow, rows: seq<ActivityRow>)
    requires WellFormed(wf) && Replay(wf, rows).Some?
    ensures var s := Replay(wf, rows).value;
            Tried(wf, s) <= |Plan(wf, s)| && CompletedComps(wf, rows) == Firsts(Plan(wf, s), Tried(wf, s))
  {
    if rows != [] {
      var s := LastStep(wf, rows);
      var init, r := rows[..|rows| - 1], rows[|rows| - 1];
      LedgerComps(wf, init);
      assert rows == init + [r];
      CompsAppend(wf, init, r);
      CompsMove(wf, s, r, Replay(wf, rows).value);
    }
  }

  /** On a ledger the table-driven lookup continues the undo plan. */
  lemma {:induction false} NextContinuesPlan(wf: Workflow, rows: seq<ActivityRow>)
    requires WellFormed(wf) && Replay(wf, rows).Some?
    requires Timed(rows) && CompletedInOrder(rows)
    ensures var s := Replay(wf, rows).value;
            NextCompensation(wf, rows) ==
            if Tried(wf, s) < |Plan(wf, s)| then Some(Plan(wf, s)[Tried(wf, s)]) else None
  {
    var s := Replay(wf, rows).value;
    TableOrderAgrees(wf, rows);
    LedgerForward(wf, rows);
    LedgerComps(wf, rows);
    ScanFollowsPlan(wf, rows, Done(wf, s), CompletedComps(wf, rows));
    UndoPlanMembers(wf, Done(wf, s));
    FirstNotInPrefix(Plan(wf, s), Tried(wf, s));
  }

  /** `r` belongs before the attempt under way. */
  ghost predicate Earlier(wf: Workflow, s: Saga, r: ActivityRow)
    requires Valid(wf, s)
  {
    match s
    case Forward(k, a) => exists m | 0 <= m <= k :: r.name == wf[m].name && (m == k ==> r.attempt < a)
    case Undo(k, j, a) =>
      || (exists m | 0 <= m <= k :: r.name == wf[m].name)
      || (exists i | 0 <= i <= j :: r.name == UndoPlan(wf, k)[i] && (i == j ==> r.attempt < a))
    case _ => true
  }

  lemma {:induction false} ResumeIsValid(wf: Workflow, s: Saga)
    requires Valid(wf, s)
    ensures Valid(wf, Resume(s)) && Done(wf, Resume(s)) == Done(wf, s)
    ensures Tried(wf, Resume(s)) == Tried(wf, s) && Undid(wf, Resume(s)) == Undid(wf, s)
  {
  }

  lemma {:induction false} EarlierMovesOn(wf: Workflow, s: Saga, last: ActivityRow, s': Saga, r: ActivityRow)
    requires Takes(wf, s, last, s')
    requires Earlier(wf, s, r) || r == last
    ensures Earlier(wf, Resume(s'), r)
  {
    match s
    case Forward(k, a) =>
      var m :| 0 <= m <= k && r.name == wf[m].name;
      if s'.Forward? && s'.k == k + 1 { assert r.name == wf[m].name && m != k + 1; }
    case Undo(k, j, a) =>
      if m :| 0 <= m <= k && r.name == wf[m].name {
      } else {
        var i :| 0 <= i <= j && r.name == UndoPlan(wf, k)[i];
      }
  }

  /** Nothing in a ledger has run ahead of the machine. */
  lemma {:induction false} LedgerEarlier(wf: Workflow, rows: seq<ActivityRow>)
    requires WellFormed(wf) && Replay(wf, rows).Some?
    ensures Valid(wf, Resume(Replay(wf, rows).value))
    ensures forall r | r in rows :: Earlier(wf, Resume(Replay(wf, rows).value), r)
  {
    if rows != [] {
      var s := LastStep(wf, rows);
      var init := rows[..|rows| - 1];
      LedgerEarlier(wf, init);
      forall r | r in rows ensures Earlier(wf, Resume(Replay(wf, rows).value), r) {
        assert rows == init + [rows[|rows| - 1]];
        EarlierMovesOn(wf, s, rows[|rows| - 1], Replay(wf, rows).value, r);
      }
    }
  }

  /** So the attempt under way has no row yet. */
  lemma {:induction false} AttemptIsFresh(wf: Workflow, rows: seq<ActivityRow>)
    requires WellFormed(wf) && Replay(wf, rows).Some?
    ensures var s := Resume(Replay(wf, rows).value);
            Valid(wf, s) && (Active(s) ==> !HasRow(rows, Doing(wf, s), s.a))
  {
    LedgerEarlier(wf, rows);
    var s := Resume(Replay(wf, rows).value);
    if Active(s) {
      DoingKind(wf, s);
      UndoPlanMembers(wf, Done(wf, s));
      forall i | 0 <= i < |rows| && rows[i].name == Doing(wf, s) ensures rows[i].attempt != s.a {
        assert Earlier(wf, s, rows[i]);
      }
    }
  }

  /**
   * A failed attempt was followed by its successor, unless the successor is what comes next or the saga turned back.
   */
  ghost predicate Followed(wf: Workflow, rows: seq<ActivityRow>, s: Saga, r: ActivityRow)
    requires Valid(wf, s)
  {
    || HasRow(rows, r.name, r.attempt + 1)
    || (Active(s) && r.name == Doing(wf, s) && r.attempt + 1 == s.a)
    || (IsForward(wf, r.name) && !s.Forward?)
  }

  lemma {:induction false} FollowedMovesOn(wf: Workflow, init: seq<ActivityRow>, s: Saga, last: ActivityRow,
      s': Saga, r: ActivityRow)
    requires WellFormed(wf) && Takes(wf, s, last, s') && r.status == RowFailed
    requires r == last || Followed(wf, init, s, r)
    ensures Valid(wf, Resume(s')) && Followed(wf, init + [last], Resume(s'), r)
  {
    DoingKind(wf, s);
    var rows := init + [last];
    HasRowStays(init, rows);
    assert rows[|init|] == last;
    assert HasRow(rows, last.name, last.attempt);
  }

  lemma {:induction false} LedgerFollowed(wf: Workflow, rows: seq<ActivityRow>)
    requires WellFormed(wf) && Replay(wf, rows).Some?
    ensures Valid(wf, Resume(Replay(wf, rows).value))
    ensures forall r | r in rows && r.status == RowFailed :: Followed(wf, rows, Resume(Replay(wf, rows).value), r)
  {
    ResumeIsValid(wf, Replay(wf, rows).value);
    if rows != [] {
      var s := LastStep(wf, rows);
      var init, last := rows[..|rows| - 1], rows[|rows| - 1];
      LedgerFollowed(wf, init);
      assert rows == init + [last];
      forall r | r in rows && r.status == RowFailed ensures Followed(wf, rows, Resume(Replay(wf, rows).value), r) {
        FollowedMovesOn(wf, init, s, last, Replay(wf, rows).value, r);
      }
    }
  }
}
