/**
 * The engine against an adversary: any result for any row, any number of times, timeouts, manual
 * retries and cancellations, with every transaction planned on a state that may be long gone by
 * the time it commits, and no lock taken at all.
 */
module Adversary {
  import opened Models
  import opened Keys
  import opened Backoff
  import opened Tables

  /******* Runs *******/

  /** The tables and every transaction some handler has ever decided on. */
  datatype World = World(t: Tables, planned: set<Tx>)

  datatype Move =
    | PlanFirst(call: Call)
    | PlanSecond(before: ExecutionStatus, call: Call)
    | PlanCancel(reason: string)
    | Fire(tx: Tx)

  function Planned(w: World, d: Decision): World {
    match d
    case Return(_) => w
    case Do(tx) => w.(planned := w.planned + {tx})
  }

  /** One move; firing what was never planned does nothing. */
  function Step(wf: Workflow, w: World, m: Move): World {
    match m
    case PlanFirst(call) => Planned(w, First(wf, w.t, call))
    case PlanSecond(before, call) => Planned(w, Second(wf, before, w.t, call))
    case PlanCancel(reason) => Planned(w, Do(CancelExecution(reason)))
    case Fire(tx) => if tx in w.planned && InRange(w.t, tx) then w.(t := Commit(w.t, tx).t) else w
  }

  function RunMoves(wf: Workflow, w: World, moves: seq<Move>): World {
    if moves == [] then w else Step(wf, RunMoves(wf, w, moves[..|moves| - 1]), moves[|moves| - 1])
  }

  function Begin(exec: string, wf: Workflow): World {
    World(Create(exec, wf), {})
  }

  /******* What every transaction keeps *******/

  ghost predicate HasRow(rows: seq<ActivityRow>, name: string, attempt: nat) {
    exists i | 0 <= i < |rows| :: rows[i].name == name && rows[i].attempt == attempt
  }

  ghost predicate KeysFormed(t: Tables) {
    && (forall i | 0 <= i < |t.rows| :: t.rows[i].key == Key(t.exec, t.rows[i].name, t.rows[i].attempt))
    && (forall i, j | 0 <= i < j < |t.rows| :: t.rows[i].key != t.rows[j].key)
  }

  ghost predicate AttemptsContiguous(rows: seq<ActivityRow>) {
    forall i {:trigger Preceded(rows, rows[i])} | 0 <= i < |rows| :: Preceded(rows, rows[i])
  }

  ghost predicate Preceded(rows: seq<ActivityRow>, r: ActivityRow) {
    r.attempt > 1 ==> HasRow(rows, r.name, r.attempt - 1)
  }

  ghost predicate TimesBounded(t: Tables) {
    && Timed(t.rows)
    && forall i | 0 <= i < |t.rows| && t.rows[i].completedAt.Some? :: t.rows[i].completedAt.value < t.completions
  }

  /** The messages that ask for an activity to be run. */
  function TaskMessages(outbox: seq<OutboxMessage>): seq<OutboxMessage> {
    if outbox == [] then []
    else
      var m := outbox[|outbox| - 1];
      TaskMessages(outbox[..|outbox| - 1]) + (if m.tier == DLQ_TIER then [] else [m])
  }

  ghost predicate OneTaskPerRow(t: Tables) {
    var tasks := TaskMessages(t.outbox);
    && |tasks| == |t.rows|
    && forall i | 0 <= i < |tasks| ::
         tasks[i].topic == t.rows[i].name && tasks[i].task == Task(t.exec, i, t.rows[i].name, t.rows[i].key)
  }

  ghost predicate Sound(t: Tables) {
    KeysFormed(t) && AttemptsContiguous(t.rows) && TimesBounded(t) && OneTaskPerRow(t)
  }

  predicate IsLaunch(tx: Tx) {
    tx.ScheduleNextActivity? || tx.StartCompensating? || tx.RetryActivity?
  }

  /**
   * A transaction some handler could have decided on: it launches a first attempt, or the successor of
   * an attempt that exists. An automatic retry respects the attempt limit and carries the backoff tier.
   */
  ghost predicate Lawful(wf: Workflow, t: Tables, tx: Tx) {
    && InRange(t, tx)
    && (IsLaunch(tx) && tx.attempt > 1 ==> HasRow(t.rows, tx.next, tx.attempt - 1))
    && (tx.ScheduleNextActivity? && tx.attempt == 1 ==> tx.tier == 0)
    && (tx.StartCompensating? && !tx.manual ==> tx.attempt == 1)
    && (tx.ScheduleNextActivity? && tx.attempt > 1 ==>
          && tx.tier == Tier(tx.attempt)
          && PolicyOf(wf, tx.next).Some?
          && tx.attempt <= AttemptLimit(PolicyOf(wf, tx.next).value))
  }

  lemma {:induction false} KeysTell(t: Tables, name: string, attempt: nat)
    requires KeysFormed(t)
    ensures KeyTaken(t.rows, Key(t.exec, name, attempt)) <==> HasRow(t.rows, name, attempt)
  {
    if KeyTaken(t.rows, Key(t.exec, name, attempt)) {
      var i :| 0 <= i < |t.rows| && t.rows[i].key == Key(t.exec, name, attempt);
      KeyInjective(t.exec, name, attempt, t.exec, t.rows[i].name, t.rows[i].attempt);
    }
  }

  /** Rows are told apart by name and attempt. */
  lemma {:induction false} RowsDiffer(t: Tables, i: nat, j: nat)
    requires KeysFormed(t) && i < |t.rows| && j < |t.rows|
    requires t.rows[i].name == t.rows[j].name && t.rows[i].attempt == t.rows[j].attempt
    ensures i == j
  {
  }

  lemma {:induction false} TaskMessagesAppend(outbox: seq<OutboxMessage>, m: OutboxMessage)
    ensures TaskMessages(outbox + [m]) == TaskMessages(outbox) + if m.tier == DLQ_TIER then [] else [m]
  {
  }

  lemma {:induction false} AppendKeepsAttempts(rows: seq<ActivityRow>, r: ActivityRow)
    requires AttemptsContiguous(rows) && (r.attempt > 1 ==> HasRow(rows, r.name, r.attempt - 1))
    ensures AttemptsContiguous(rows + [r])
  {
    HasRowStays(rows, rows + [r]);
    forall i | 0 <= i < |rows + [r]| ensures Preceded(rows + [r], (rows + [r])[i]) {
      if i < |rows| { assert Preceded(rows, rows[i]); }
    }
  }

  lemma {:induction false} AppendKeepsTasks(t: Tables, t': Tables, m: OutboxMessage)
    requires OneTaskPerRow(t) && t'.exec == t.exec && |t'.rows| == |t.rows| + 1
    requires forall i | 0 <= i < |t.rows| :: t'.rows[i] == t.rows[i]
    requires t'.outbox == t.outbox + [m] && m.tier != DLQ_TIER
    requires var r := t'.rows[|t.rows|]; m.topic == r.name && m.task == Task(t.exec, |t.rows|, r.name, r.key)
    ensures OneTaskPerRow(t')
  {
  }

  lemma {:induction false} LaunchKeepsSound(t: Tables, status: ExecutionStatus, name: string, attempt: Attempt,
      event: Event, tier: int)
    requires Sound(t) && tier != DLQ_TIER
    requires attempt > 1 ==> HasRow(t.rows, name, attempt - 1)
    ensures Sound(Launch(t, status, name, attempt, event, tier).t)
  {
    var r := Launch(t, status, name, attempt, event, tier);
    if r.ok {
      AppendKeepsAttempts(t.rows, r.t.rows[|t.rows|]);
      AppendKeepsTasks(t, r.t, Message(t, |t.rows|, name, Key(t.exec, name, attempt), tier));
    }
  }

  lemma {:induction false} HasRowStays(rows: seq<ActivityRow>, rows': seq<ActivityRow>)
    requires |rows| <= |rows'|
    requires forall i | 0 <= i < |rows| :: rows'[i].name == rows[i].name && rows'[i].attempt == rows[i].attempt
    ensures forall name, attempt | HasRow(rows, name, attempt) :: HasRow(rows', name, attempt)
  {
  }

  lemma {:induction false} TierIsNotDlq(n: nat)
    requires n >= 2
    ensures Tier(n) != DLQ_TIER
  {
  }

  /** Settling a row keeps its name, attempt and key, so only the completion times need a look. */
  lemma {:induction false} UpdateKeepsSound(t: Tables, t': Tables, id: nat, r: ActivityRow)
    requires Sound(t) && id < |t.rows| && t'.exec == t.exec && t'.rows == t.rows[id := r]
    requires r.name == t.rows[id].name && r.attempt == t.rows[id].attempt && r.key == t.rows[id].key
    requires TimesBounded(t') && TaskMessages(t'.outbox) == TaskMessages(t.outbox)
    ensures Sound(t')
  {
    HasRowStays(t.rows, t'.rows);
    forall i | 0 <= i < |t'.rows| ensures Preceded(t'.rows, t'.rows[i]) {
      assert Preceded(t.rows, t.rows[i]);
    }
  }

  lemma {:induction false} SettleKeepsSound(t: Tables, tx: Tx)
    requires Sound(t) && InRange(t, tx) && IsSettle(tx)
    ensures Sound(Commit(t, tx).t)
  {
    var t' := Commit(t, tx).t;
    if tx.DeadLetterActivity? {
      TaskMessagesAppend(t.outbox, Message(t, tx.id, t.rows[tx.id].name, t.rows[tx.id].key, DLQ_TIER));
    }
    UpdateKeepsSound(t, t', tx.id, t'.rows[tx.id]);
  }

  lemma {:induction false} CommitKeepsSound(wf: Workflow, t: Tables, tx: Tx)
    requires Sound(t) && Lawful(wf, t, tx)
    ensures Sound(Commit(t, tx).t)
  {
    match tx
    case ScheduleNextActivity(next, attempt, tier) =>
      if attempt > 1 { TierIsNotDlq(attempt); }
      LaunchKeepsSound(t, t.status, next, attempt,
                       ActivityScheduled(next, if attempt == 1 then None else Some(attempt), false), tier);
    case StartCompensating(next, attempt, manual) =>
      LaunchKeepsSound(t, Compensating, next, attempt,
                       CompensationStarted(next, if manual then Some(attempt) else None, manual), 0);
    case RetryActivity(comp, next, attempt) =>
      if comp {
        LaunchKeepsSound(t, Compensating, next, attempt, CompensationStarted(next, Some(attempt), true), 0);
      } else {
        LaunchKeepsSound(t, Running, next, attempt, ActivityScheduled(next, Some(attempt), true), 0);
      }
    case CompleteActivity(_) => SettleKeepsSound(t, tx);
    case FailActivity(_) => SettleKeepsSound(t, tx);
    case DeadLetterActivity(_) => SettleKeepsSound(t, tx);
    case _ =>
  }

  /** Rows are never removed and never change name or attempt, so a plan stays lawful however late it commits. */
  lemma {:induction false} LawfulStays(wf: Workflow, t: Tables, tx: Tx, tx': Tx)
    requires InRange(t, tx) && Lawful(wf, t, tx')
    ensures Lawful(wf, Commit(t, tx).t, tx')
  {
    HasRowStays(t.rows, Commit(t, tx).t.rows);
  }

  ghost predicate GoodListing(t: Tables, call: Call) {
    call.RetryCompensation? ==> forall r | r in call.acts :: HasRow(t.rows, r.name, r.attempt)
  }

  lemma {:induction false} FirstIsLawful(wf: Workflow, t: Tables, call: Call)
    requires GoodListing(t, call)
    ensures First(wf, t, call).Do? ==> Lawful(wf, t, First(wf, t, call).tx)
  {
  }

  lemma {:induction false} SecondIsLawful(wf: Workflow, before: ExecutionStatus, t: Tables, call: Call)
    ensures Second(wf, before, t, call).Do? ==>
              Lawful(wf, t, Second(wf, before, t, call).tx) && !Second(wf, before, t, call).tx.CancelExecution?
  {
  }

  ghost predicate WorldSound(wf: Workflow, w: World) {
    && Sound(w.t)
    && forall tx | tx in w.planned :: Lawful(wf, w.t, tx)
  }

  /** A listing given to a retry is one the database could have returned, now or earlier. */
  ghost predicate MoveAllowed(w: World, m: Move) {
    m.PlanFirst? ==> GoodListing(w.t, m.call)
  }

  ghost predicate RunAllowed(wf: Workflow, w: World, moves: seq<Move>) {
    moves != [] ==>
      && RunAllowed(wf, w, moves[..|moves| - 1])
      && MoveAllowed(RunMoves(wf, w, moves[..|moves| - 1]), moves[|moves| - 1])
  }

  lemma {:induction false} StepKeepsWorldSound(wf: Workflow, w: World, m: Move)
    requires WorldSound(wf, w) && MoveAllowed(w, m)
    ensures WorldSound(wf, Step(wf, w, m))
  {
    match m
    case PlanFirst(call) => FirstIsLawful(wf, w.t, call);
    case PlanSecond(before, call) => SecondIsLawful(wf, before, w.t, call);
    case PlanCancel(_) =>
    case Fire(tx) =>
      if tx in w.planned {
        CommitKeepsSound(wf, w.t, tx);
        forall tx' | tx' in w.planned ensures Lawful(wf, Commit(w.t, tx).t, tx') {
          LawfulStays(wf, w.t, tx, tx');
        }
      }
  }

  lemma {:induction false} CreateIsSound(exec: string, wf: Workflow)
    ensures Sound(Create(exec, wf))
  {
  }

  lemma {:induction false} RunKeepsWorldSound(wf: Workflow, exec: string, moves: seq<Move>)
    requires RunAllowed(wf, Begin(exec, wf), moves)
    ensures WorldSound(wf, RunMoves(wf, Begin(exec, wf), moves))
  {
    if moves == [] {
      CreateIsSound(exec, wf);
    } else {
      RunKeepsWorldSound(wf, exec, moves[..|moves| - 1]);
      StepKeepsWorldSound(wf, RunMoves(wf, Begin(exec, wf), moves[..|moves| - 1]), moves[|moves| - 1]);
    }
  }

  /******* Key safety *******/

  lemma {:induction false} EarlierAttemptsExist(rows: seq<ActivityRow>, name: string, attempt: nat, b: nat)
    requires AttemptsContiguous(rows) && HasRow(rows, name, attempt) && 1 <= b <= attempt
    ensures HasRow(rows, name, b)
    decreases attempt - b
  {
    if b < attempt {
      EarlierAttemptsExist(rows, name, attempt, b + 1);
      var i :| 0 <= i < |rows| && rows[i].name == name && rows[i].attempt == b + 1;
      assert Preceded(rows, rows[i]);
    }
  }

  /** Against any adversary: no two rows share a name and an attempt, and attempts of a name have no gaps. */
  lemma {:induction false} KeySafety(wf: Workflow, exec: string, moves: seq<Move>)
    requires RunAllowed(wf, Begin(exec, wf), moves)
    ensures var rows := RunMoves(wf, Begin(exec, wf), moves).t.rows;
            && (forall i, j | 0 <= i < j < |rows| :: rows[i].name != rows[j].name || rows[i].attempt != rows[j].attempt)
            && (forall i, b | 0 <= i < |rows| && 1 <= b <= rows[i].attempt :: HasRow(rows, rows[i].name, b))
  {
    RunKeepsWorldSound(wf, exec, moves);
    var rows := RunMoves(wf, Begin(exec, wf), moves).t.rows;
    forall i, b | 0 <= i < |rows| && 1 <= b <= rows[i].attempt ensures HasRow(rows, rows[i].name, b) {
      EarlierAttemptsExist(rows, rows[i].name, rows[i].attempt, b);
    }
  }

  lemma {:induction false} RunExtends(wf: Workflow, w: World, moves: seq<Move>, more: seq<Move>)
    ensures RunMoves(wf, w, moves + more) == RunMoves(wf, RunMoves(wf, w, moves), more)
  {
    if more == [] {
      assert moves + more == moves;
    } else {
      var init := more[..|more| - 1];
      RunExtends(wf, w, moves, init);
      assert (moves + more)[..|moves + more| - 1] == moves + init;
    }
  }

  lemma {:induction false} CommitKeepsRows(t: Tables, tx: Tx)
    requires InRange(t, tx)
    ensures var rows, rows' := t.rows, Commit(t, tx).t.rows;
            && |rows| <= |rows'|
            && forall i | 0 <= i < |rows| :: rows'[i].name == rows[i].name && rows'[i].attempt == rows[i].attempt
    ensures Commit(t, tx).t.exec == t.exec
  {
  }

  lemma {:induction false} RowsStay(wf: Workflow, w: World, moves: seq<Move>)
    ensures var rows, rows' := w.t.rows, RunMoves(wf, w, moves).t.rows;
            && |rows| <= |rows'|
            && forall i | 0 <= i < |rows| :: rows'[i].name == rows[i].name && rows'[i].attempt == rows[i].attempt
    ensures RunMoves(wf, w, moves).t.exec == w.t.exec
  {
    if moves != [] {
      RowsStay(wf, w, moves[..|moves| - 1]);
      var w', m := RunMoves(wf, w, moves[..|moves| - 1]), moves[|moves| - 1];
      if m.Fire? && InRange(w'.t, m.tx) { CommitKeepsRows(w'.t, m.tx); }
    }
  }

  /**
   * An attempt is launched at most once in a run, be it a scheduled successor, a compensation or a manual
   * retry of a dead-lettered row: after it exists, every later launch of it is refused and changes nothing.
   */
  lemma {:induction false} LaunchedAtMostOnce(wf: Workflow, exec: string, moves: seq<Move>, more: seq<Move>, tx: Tx)
    requires RunAllowed(wf, Begin(exec, wf), moves + more)
    requires IsLaunch(tx) && HasRow(RunMoves(wf, Begin(exec, wf), moves).t.rows, tx.next, tx.attempt)
    ensures var t := RunMoves(wf, Begin(exec, wf), moves + more).t;
            Commit(t, tx) == Reply(t, false)
  {
    var w := RunMoves(wf, Begin(exec, wf), moves);
    RunExtends(wf, Begin(exec, wf), moves, more);
    RowsStay(wf, w, more);
    var t := RunMoves(wf, w, more).t;
    HasRowStays(w.t.rows, t.rows);
    RunKeepsWorldSound(wf, exec, moves + more);
    KeysTell(t, tx.next, tx.attempt);
  }

  /** Every row ever inserted, pending or not, had exactly one task message written with it, in the same order. */
  lemma {:induction false} EveryRowHasItsTask(wf: Workflow, exec: string, moves: seq<Move>)
    requires RunAllowed(wf, Begin(exec, wf), moves)
    ensures OneTaskPerRow(RunMoves(wf, Begin(exec, wf), moves).t)
  {
    RunKeepsWorldSound(wf, exec, moves);
  }

  /******* Log and state *******/

  datatype Summary = Summary(status: ExecutionStatus, current: string)

  function Apply(s: Summary, e: Event): Summary {
    match e
    case WorkflowStarted => Summary(Running, "")
    case WorkflowCompleted => s.(status := Completed)
    case WorkflowFailed(_, _) => s.(status := Failed)
    case ActivityScheduled(name, _, manual) => Summary(if manual then Running else s.status, name)
    case ActivityCompleted(_) => s
    case ActivityFailed(_) => s
    case CompensationStarted(name, _, _) => Summary(Compensating, name)
    case CompensationCompleted => s.(status := Compensated)
  }

  /** Folds an event log. */
  function Fold(events: seq<Event>): Summary {
    if events == [] then Summary(Running, "") else Apply(Fold(events[..|events| - 1]), events[|events| - 1])
  }

  /** The names that a log says were launched, in order. */
  function LaunchedNames(events: seq<Event>): seq<string> {
    if events == [] then []
    else
      LaunchedNames(events[..|events| - 1]) +
      match events[|events| - 1]
      case ActivityScheduled(name, _, _) => [name]
      case CompensationStarted(name, _, _) => [name]
      case _ => []
  }

  function RowNames(rows: seq<ActivityRow>): seq<string> {
    seq(|rows|, i requires 0 <= i < |rows| => rows[i].name)
  }

  ghost predicate LogAgrees(t: Tables) {
    && Fold(t.events) == Summary(t.status, t.current)
    && LaunchedNames(t.events) == RowNames(t.rows)
  }

  lemma {:induction false} FoldAppend(events: seq<Event>, e: Event)
    ensures Fold(events + [e]) == Apply(Fold(events), e)
    ensures LaunchedNames(events + [e]) == LaunchedNames(events) +
              match e
              case ActivityScheduled(name, _, _) => [name]
              case CompensationStarted(name, _, _) => [name]
              case _ => []
  {
  }

  lemma {:induction false} LaunchKeepsLog(t: Tables, status: ExecutionStatus, name: string, attempt: Attempt,
      event: Event, tier: int)
    requires LogAgrees(t) && Apply(Summary(t.status, t.current), event) == Summary(status, name)
    requires event.ActivityScheduled? || event.CompensationStarted?
    ensures LogAgrees(Launch(t, status, name, attempt, event, tier).t)
  {
    hide Key, KeyTaken;
    FoldAppend(t.events, event);
    var r := Launch(t, status, name, attempt, event, tier);
    if r.ok {
      assert RowNames(r.t.rows) == RowNames(t.rows) + [name];
    }
  }

  /** An event that launches nothing and leaves status and activity where the tables have them. */
  lemma {:induction false} EventKeepsLog(t: Tables, t': Tables, e: Event)
    requires LogAgrees(t) && !e.ActivityScheduled? && !e.CompensationStarted?
    requires t'.events == t.events + [e] && RowNames(t'.rows) == RowNames(t.rows)
    requires Apply(Summary(t.status, t.current), e) == Summary(t'.status, t'.current)
    ensures LogAgrees(t')
  {
    hide Fold, RowNames;
    FoldAppend(t.events, e);
  }

  lemma {:induction false} SettlingKeepsNames(rows: seq<ActivityRow>, id: nat, r: ActivityRow)
    requires id < |rows| && r.name == rows[id].name
    ensures RowNames(rows[id := r]) == RowNames(rows)
  {
  }

  lemma {:induction false} OtherKeepsLog(t: Tables, tx: Tx)
    requires InRange(t, tx) && LogAgrees(t) && !IsLaunch(tx) && !tx.CancelExecution?
    ensures LogAgrees(Commit(t, tx).t)
  {
    hide Fold, RowNames, LogAgrees, Message;
    var t' := Commit(t, tx).t;
    if IsSettle(tx) { SettlingKeepsNames(t.rows, tx.id, t'.rows[tx.id]); }
    EventKeepsLog(t, t', t'.events[|t.events|]);
  }

  lemma {:induction false} CommitKeepsLog(t: Tables, tx: Tx)
    requires InRange(t, tx) && LogAgrees(t) && !tx.CancelExecution?
    ensures LogAgrees(Commit(t, tx).t)
  {
    match tx
    case ScheduleNextActivity(next, attempt, tier) =>
      LaunchKeepsLog(t, t.status, next, attempt,
                     ActivityScheduled(next, if attempt == 1 then None else Some(attempt), false), tier);
    case StartCompensating(next, attempt, manual) =>
      LaunchKeepsLog(t, Compensating, next, attempt,
                     CompensationStarted(next, if manual then Some(attempt) else None, manual), 0);
    case RetryActivity(comp, next, attempt) =>
      if comp {
        LaunchKeepsLog(t, Compensating, next, attempt, CompensationStarted(next, Some(attempt), true), 0);
      } else {
        LaunchKeepsLog(t, Running, next, attempt, ActivityScheduled(next, Some(attempt), true), 0);
      }
    case _ => OtherKeepsLog(t, tx);
  }

  ghost predicate NoCancel(moves: seq<Move>) {
    forall m | m in moves :: !m.PlanCancel?
  }

  lemma {:induction false} RunKeepsLog(wf: Workflow, w: World, moves: seq<Move>)
    requires NoCancel(moves) && LogAgrees(w.t) && forall tx | tx in w.planned :: !tx.CancelExecution?
    ensures LogAgrees(RunMoves(wf, w, moves).t)
    ensures forall tx | tx in RunMoves(wf, w, moves).planned :: !tx.CancelExecution?
  {
    if moves != [] {
      var init, m := moves[..|moves| - 1], moves[|moves| - 1];
      assert forall x | x in init :: x in moves;
      RunKeepsLog(wf, w, init);
      var w' := RunMoves(wf, w, init);
      if m.Fire? && m.tx in w'.planned && InRange(w'.t, m.tx) {
        CommitKeepsLog(w'.t, m.tx);
      }
    }
  }

  /**
   * Without cancellations, folding the event log in commit order gives back the stored status and current
   * activity, and the launches it records are the rows, in order. This needs a non-empty definition, and
   * exactly that: an empty one is stored as completed while its log says it only started.
   */
  lemma {:induction false} LogReconstructsState(wf: Workflow, exec: string, moves: seq<Move>)
    requires NoCancel(moves)
    ensures wf != [] ==> LogAgrees(RunMoves(wf, Begin(exec, wf), moves).t)
    ensures LogAgrees(Create(exec, wf)) <==> wf != []
  {
    StartOfLog(exec, wf);
    if wf != [] {
      RunKeepsLog(wf, Begin(exec, wf), moves);
    }
  }

  lemma {:induction false} StartOfLog(exec: string, wf: Workflow)
    ensures LogAgrees(Create(exec, wf)) <==> wf != []
  {
    var t := Create(exec, wf);
    FoldAppend([], WorkflowStarted);
    assert [] + [WorkflowStarted] == [WorkflowStarted];
    if wf != [] {
      var e := ActivityScheduled(wf[0].name, None, false);
      FoldAppend([WorkflowStarted], e);
      assert t.events == [WorkflowStarted] + [e];
      assert RowNames(t.rows) == [wf[0].name];
    }
  }

  /** A cancellation after the end appends an event that the status does not follow. */
  lemma {:induction false} CancelBreaksLog(t: Tables, reason: string)
    requires LogAgrees(t)
    ensures LogAgrees(Commit(t, CancelExecution(reason)).t) <==> t.status == Failed
  {
  }

  /******* Handlers are such runs *******/

  /** Every handler call, whole or cut off after its first transaction, is a short run of the adversary. */
  lemma {:induction false} HandleIsARun(wf: Workflow, t: Tables, call: Call) returns (moves: seq<Move>, cut: seq<Move>)
    ensures RunMoves(wf, World(t, {}), moves).t == Handle(wf, t, call).t
    ensures RunMoves(wf, World(t, {}), cut).t == HandleCrashed(wf, t, call)
    ensures NoCancel(moves)
    ensures GoodListing(t, call) ==> RunAllowed(wf, World(t, {}), moves)
  {
    var w := World(t, {});
    var d := First(wf, t, call);
    if d.Return? {
      return [], [];
    }
    var m1 := [PlanFirst(call)];
    var m2 := m1 + [Fire(d.tx)];
    var m3 := m2 + [PlanSecond(t.status, call)];
    assert m1[..0] == [] && m2[..1] == m1 && m3[..2] == m2;
    cut := m2;
    var r := Commit(t, d.tx);
    assert RunMoves(wf, w, m1) == World(t, {d.tx});
    assert RunMoves(wf, w, m2) == World(r.t, {d.tx});
    assert GoodListing(t, call) ==> RunAllowed(wf, w, m1);
    assert GoodListing(t, call) ==> RunAllowed(wf, w, m2);
    assert GoodListing(t, call) ==> RunAllowed(wf, w, m3);
    if !r.ok {
      moves := m2;
      return;
    }
    var d2 := Second(wf, t.status, r.t, call);
    if d2.Return? {
      moves := m3;
      return;
    }
    assert RunMoves(wf, w, m3) == World(r.t, {d.tx, d2.tx});
    moves := m3 + [Fire(d2.tx)];
    assert moves[..3] == m3;
  }

  lemma {:induction false} LawfulCommitKeepsBoth(wf: Workflow, t: Tables, tx: Tx)
    requires Sound(t) && Lawful(wf, t, tx) && !tx.CancelExecution?
    ensures Sound(Commit(t, tx).t) && (LogAgrees(t) ==> LogAgrees(Commit(t, tx).t))
  {
    CommitKeepsSound(wf, t, tx);
    if LogAgrees(t) { CommitKeepsLog(t, tx); }
  }

  lemma {:induction false} FollowUpKeepsSound(wf: Workflow, before: ExecutionStatus, t: Tables, call: Call, tx: Tx)
    requires Sound(t) && Second(wf, before, t, call) == Do(tx)
    ensures Sound(Commit(t, tx).t) && (LogAgrees(t) ==> LogAgrees(Commit(t, tx).t))
  {
    SecondIsLawful(wf, before, t, call);
    LawfulCommitKeepsBoth(wf, t, tx);
  }

  /** A whole call keeps the tables sound, and so does one cut off. */
  lemma {:induction false} HandleKeepsSound(wf: Workflow, t: Tables, call: Call)
    requires Sound(t) && GoodListing(t, call)
    ensures Sound(Handle(wf, t, call).t)
    ensures Sound(HandleCrashed(wf, t, call))
    ensures LogAgrees(t) ==> LogAgrees(Handle(wf, t, call).t)
  {
    FirstIsLawful(wf, t, call);
    var d := First(wf, t, call);
    if d.Do? {
      LawfulCommitKeepsBoth(wf, t, d.tx);
      var t1 := Commit(t, d.tx).t;
      var d2 := Second(wf, t.status, t1, call);
      if d2.Do? { FollowUpKeepsSound(wf, t.status, t1, call, d2.tx); }
    }
  }
}
