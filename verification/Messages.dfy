/**
 * What the engine's messages say and where they go: against any adversary, the task message of every row carries the
 * delay that its launch asks for, and every dead-lettered row has its dead letter.
 */
module Messages {
  import opened Models
  import opened Backoff
  import opened Tables
  import opened Adversary
  import opened Topics
  import opened Broker
  import Outbox

  /******* Launches, rows and task messages *******/

  predicate IsLaunched(ev: Event) {
    ev.ActivityScheduled? || ev.CompensationStarted?
  }

  /** The launches of a log, in order. */
  function Launches(events: seq<Event>): seq<Event> {
    if events == [] then []
    else
      var ev := events[|events| - 1];
      Launches(events[..|events| - 1]) + if IsLaunched(ev) then [ev] else []
  }

  /** The log tells automatic retries by an attempt that no operator asked for. */
  predicate IsAutomatic(ev: Event) {
    ev.ActivityScheduled? && ev.attempt.Some? && !ev.manualRetry
  }

  /** A launch of the log, its row and its task message. */
  ghost predicate Tells(ev: Event, r: ActivityRow, m: OutboxMessage) {
    && IsLaunched(ev) && ev.name == r.name && m.topic == r.name
    && (ev.attempt.Some? ==> ev.attempt.value == r.attempt)
    && (ev.attempt.None? ==> r.attempt == 1)
    && (IsAutomatic(ev) ==> r.attempt >= 2 && r.attempt != 65 && m.tier == Tier(r.attempt))
    && (!IsAutomatic(ev) ==> m.tier == 0)
  }

  /** The log, the rows and the task messages tell the same launches, in the same order. */
  ghost predicate AllTold(t: Tables) {
    var launches, tasks := Launches(t.events), TaskMessages(t.outbox);
    && |launches| == |t.rows| == |tasks|
    && forall i | 0 <= i < |t.rows| :: Tells(launches[i], t.rows[i], tasks[i])
  }

  lemma {:induction false} LaunchesAppend(events: seq<Event>, ev: Event)
    ensures Launches(events + [ev]) == Launches(events) + if IsLaunched(ev) then [ev] else []
  {
  }

  lemma {:induction false} LaunchTells(t: Tables, status: ExecutionStatus, name: string, attempt: Attempt,
      ev: Event, tier: int)
    requires AllTold(t) && tier != DLQ_TIER
    requires FitsInt32(tier) ==> forall m: OutboxMessage, r: ActivityRow | m.topic == r.name == name && m.tier == tier
               && r.attempt == attempt :: Tells(ev, r, m)
    ensures AllTold(Launch(t, status, name, attempt, ev, tier).t)
  {
    hide FitsInt32, KeyTaken, Tells;
    var r := Launch(t, status, name, attempt, ev, tier);
    if r.ok {
      var m := r.t.outbox[|t.outbox|];
      LaunchesAppend(t.events, ev);
      TaskMessagesAppend(t.outbox, m);
      assert Tells(ev, r.t.rows[|t.rows|], m);
      assert IsLaunched(ev) by { TellsLaunch(ev, r.t.rows[|t.rows|], m); }
    }
  }

  lemma {:induction false} TellsLaunch(ev: Event, r: ActivityRow, m: OutboxMessage)
    requires Tells(ev, r, m)
    ensures IsLaunched(ev)
  {
  }

  /** Other transactions launch nothing and leave names and attempts alone. */
  lemma {:induction false} OtherTells(t: Tables, tx: Tx)
    requires AllTold(t) && InRange(t, tx) && !IsLaunch(tx)
    ensures AllTold(Commit(t, tx).t)
  {
    hide Tier;
    var t' := Commit(t, tx).t;
    LaunchesAppend(t.events, t'.events[|t.events|]);
    if tx.DeadLetterActivity? { TaskMessagesAppend(t.outbox, t'.outbox[|t.outbox|]); }
    CommitKeepsRows(t, tx);
  }

  lemma {:induction false} CommitTells(wf: Workflow, t: Tables, tx: Tx)
    requires AllTold(t) && Lawful(wf, t, tx)
    ensures AllTold(Commit(t, tx).t)
  {
    hide AllTold, Launch, Tier, HasRow, AttemptLimit, PolicyOf, FitsInt32;
    match tx
    case ScheduleNextActivity(next, attempt, tier) =>
      if attempt > 1 {
        TierIsNotDlq(attempt);
        TierExact(attempt);
      }
      LaunchTells(t, t.status, next, attempt,
          ActivityScheduled(next, if attempt == 1 then None else Some(attempt), false), tier);
    case StartCompensating(next, attempt, manual) =>
      LaunchTells(t, Compensating, next, attempt,
          CompensationStarted(next, if manual then Some(attempt) else None, manual), 0);
    case RetryActivity(comp, next, attempt) =>
      if comp {
        LaunchTells(t, Compensating, next, attempt, CompensationStarted(next, Some(attempt), true), 0);
      } else {
        LaunchTells(t, Running, next, attempt, ActivityScheduled(next, Some(attempt), true), 0);
      }
    case _ => OtherTells(t, tx);
  }

  lemma {:induction false} StartTells(exec: string, wf: Workflow)
    ensures AllTold(Create(exec, wf))
  {
    var t := Create(exec, wf);
    assert [] + [WorkflowStarted] == [WorkflowStarted];
    LaunchesAppend([], WorkflowStarted);
    if wf != [] {
      LaunchesAppend([WorkflowStarted], t.events[1]);
      assert t.events == [WorkflowStarted] + [t.events[1]];
      TaskMessagesAppend([], t.outbox[0]);
      assert t.outbox == [] + [t.outbox[0]];
    }
  }

  /******* Dead letters *******/

  ghost predicate IsDeadLetter(t: Tables, n: nat, i: nat) {
    && n < |t.outbox| && i < |t.rows| && t.outbox[n].tier == DLQ_TIER && t.outbox[n].topic == t.rows[i].name
    && t.outbox[n].task == Task(t.exec, i, t.rows[i].name, t.rows[i].key)
  }

  /** Dead letters are about dead-lettered rows, and each such row has one. */
  ghost predicate DeadLettersTold(t: Tables) {
    && (forall i | 0 <= i < |t.rows| && t.rows[i].deadLettered :: exists n: nat :: IsDeadLetter(t, n, i))
    && (forall n | 0 <= n < |t.outbox| && t.outbox[n].tier == DLQ_TIER ::
          var i := t.outbox[n].task.activityId; IsDeadLetter(t, n, i) && t.rows[i].deadLettered)
  }

  /** Where rows keep names and keys and nothing is dead-lettered, old letters stay the letters they were. */
  lemma {:induction false} LettersStay(t: Tables, t': Tables)
    requires DeadLettersTold(t) && t'.exec == t.exec && t.outbox <= t'.outbox && |t.rows| <= |t'.rows|
    requires forall i | 0 <= i < |t.rows| :: t'.rows[i].name == t.rows[i].name && t'.rows[i].key == t.rows[i].key
               && t'.rows[i].deadLettered == t.rows[i].deadLettered
    requires forall i | |t.rows| <= i < |t'.rows| :: !t'.rows[i].deadLettered
    requires forall n | |t.outbox| <= n < |t'.outbox| :: t'.outbox[n].tier != DLQ_TIER
    ensures DeadLettersTold(t')
  {
    forall i | 0 <= i < |t'.rows| && t'.rows[i].deadLettered ensures exists n: nat :: IsDeadLetter(t', n, i) {
      var n: nat :| IsDeadLetter(t, n, i);
      assert IsDeadLetter(t', n, i);
    }
    forall n | 0 <= n < |t'.outbox| && t'.outbox[n].tier == DLQ_TIER
      ensures var i := t'.outbox[n].task.activityId; IsDeadLetter(t', n, i) && t'.rows[i].deadLettered
    {
      assert t'.outbox[n] == t.outbox[n];
    }
  }

  lemma {:induction false} DeadLetterTold(t: Tables, id: nat)
    requires DeadLettersTold(t) && id < |t.rows|
    ensures DeadLettersTold(Commit(t, DeadLetterActivity(id)).t)
  {
    var t' := Commit(t, DeadLetterActivity(id)).t;
    assert IsDeadLetter(t', |t.outbox|, id);
    forall i | 0 <= i < |t'.rows| && t'.rows[i].deadLettered ensures exists n: nat :: IsDeadLetter(t', n, i) {
      if i != id {
        var n: nat :| IsDeadLetter(t, n, i);
        assert IsDeadLetter(t', n, i);
      }
    }
    forall n | 0 <= n < |t'.outbox| && t'.outbox[n].tier == DLQ_TIER
      ensures var i := t'.outbox[n].task.activityId; IsDeadLetter(t', n, i) && t'.rows[i].deadLettered
    {
      if n < |t.outbox| { assert t'.outbox[n] == t.outbox[n]; }
    }
  }

  lemma {:induction false} CommitTellsLetters(wf: Workflow, t: Tables, tx: Tx)
    requires DeadLettersTold(t) && Lawful(wf, t, tx)
    ensures DeadLettersTold(Commit(t, tx).t)
  {
    hide DeadLettersTold, Tier, HasRow, AttemptLimit, PolicyOf, KeyTaken;
    if tx.DeadLetterActivity? {
      DeadLetterTold(t, tx.id);
    } else {
      if tx.ScheduleNextActivity? && tx.attempt > 1 { TierIsNotDlq(tx.attempt); }
      LettersStay(t, Commit(t, tx).t);
    }
  }

  /** Against any adversary. */
  lemma {:induction false} RunTells(wf: Workflow, exec: string, moves: seq<Move>)
    requires RunAllowed(wf, Begin(exec, wf), moves)
    ensures AllTold(RunMoves(wf, Begin(exec, wf), moves).t) && DeadLettersTold(RunMoves(wf, Begin(exec, wf), moves).t)
  {
    hide AllTold, DeadLettersTold, Lawful, First, Second, Commit, Sound;
    if moves == [] {
      StartTells(exec, wf);
      NoLettersYet(exec, wf);
    } else {
      var init, m := moves[..|moves| - 1], moves[|moves| - 1];
      RunTells(wf, exec, init);
      RunKeepsWorldSound(wf, exec, init);
      var w := RunMoves(wf, Begin(exec, wf), init);
      if m.Fire? && m.tx in w.planned && InRange(w.t, m.tx) {
        CommitTells(wf, w.t, m.tx);
        CommitTellsLetters(wf, w.t, m.tx);
      }
    }
  }

  lemma {:induction false} NoLettersYet(exec: string, wf: Workflow)
    ensures DeadLettersTold(Create(exec, wf))
  {
  }

  /******* Where they go *******/

  /** The queues that the publication of a message reaches. */
  ghost function Reached(bindings: set<Binding>, m: OutboxMessage): set<string> {
    var p := Outbox.PublicationOf(m);
    Routes(bindings, p.exchange, p.key, p.tier)
  }

  /** The task message of row `i` asks for that row to be run, and goes where its launch in the log wants it. */
  ghost predicate GoesAsTold(t: Tables, i: nat, bindings: set<Binding>, names: set<string>) {
    var launches, tasks := Launches(t.events), TaskMessages(t.outbox);
    && i < |launches| && i < |t.rows| && i < |tasks| && IsLaunched(launches[i])
    && var ev, r, m := launches[i], t.rows[i], tasks[i];
       && ev.name == r.name && r.attempt == (if ev.attempt.Some? then ev.attempt.value else 1)
       && Outbox.PublicationOf(m).task == Task(t.exec, i, r.name, r.key)
       && (IsAutomatic(ev) ==> r.attempt >= 2 && r.attempt != 65)
       && (IsAutomatic(ev) && 2 <= r.attempt <= 64 ==>
             var delay := if Pow2(r.attempt - 2) <= 16 then Pow2(r.attempt - 2) else 16;
             Reached(bindings, m) == {ParkingQueue(delay)})
       && (!IsAutomatic(ev) || r.attempt > 64 ==>
             (ActivityQueue(r.name) in Reached(bindings, m) <==> r.name in names))
  }

  lemma {:induction false} ToldGoes(t: Tables, i: nat, bindings: set<Binding>, names: set<string>)
    requires AllTold(t) && OneTaskPerRow(t) && i < |t.rows| && Declared(bindings, names)
    ensures GoesAsTold(t, i, bindings, names)
  {
    hide Tier, Pow2, Routes, Declared, ActivityQueue, ParkingQueue, FitsInt32;
    var r, m := t.rows[i], TaskMessages(t.outbox)[i];
    assert Tells(Launches(t.events)[i], r, m);
    TasksReachTheirQueue(bindings, names, r.name, None);
    if IsAutomatic(Launches(t.events)[i]) {
      TierExact(r.attempt);
      RetriesAreParked(bindings, names, r.name, m.tier);
    }
  }

  /**
   * For every row ever launched: an automatic retry as attempt n, for n up to 64, is parked for min(16, 2^(n-2))
   * seconds, in that tier's queue alone; there is none as attempt 65. Any other launch, be it a first attempt, a retry
   * by hand, or an automatic one from attempt 66 on, goes straight to the queue of its activity, if that is
   * registered.
   */
  lemma {:induction false} TasksAreDelayed(wf: Workflow, exec: string, moves: seq<Move>, i: nat, bindings: set<Binding>,
      names: set<string>)
    requires RunAllowed(wf, Begin(exec, wf), moves) && Declared(bindings, names)
    requires i < |RunMoves(wf, Begin(exec, wf), moves).t.rows|
    ensures GoesAsTold(RunMoves(wf, Begin(exec, wf), moves).t, i, bindings, names)
  {
    hide RunMoves, Declared, AllTold, OneTaskPerRow, GoesAsTold;
    RunTells(wf, exec, moves);
    EveryRowHasItsTask(wf, exec, moves);
    ToldGoes(RunMoves(wf, Begin(exec, wf), moves).t, i, bindings, names);
  }

  lemma {:induction false} LettersTell(name: string, name': string)
    ensures DeadLetterQueue(name) == DeadLetterQueue(name') ==> name == name'
  {
    assert DeadLetterQueue(name)[9..|DeadLetterQueue(name)| - 4] == name;
    assert DeadLetterQueue(name')[9..|DeadLetterQueue(name')| - 4] == name';
  }

  /**
   * A row is dead-lettered if and only if a dead letter has been written for it, and that reaches the dead-letter
   * queue of its activity if and only if the activity is registered.
   */
  lemma {:induction false} DeadLettersArrive(wf: Workflow, exec: string, moves: seq<Move>, i: nat,
      bindings: set<Binding>, names: set<string>)
    requires RunAllowed(wf, Begin(exec, wf), moves) && Declared(bindings, names)
    requires i < |RunMoves(wf, Begin(exec, wf), moves).t.rows|
    ensures var t := RunMoves(wf, Begin(exec, wf), moves).t;
            && (t.rows[i].deadLettered <==> exists n: nat :: IsDeadLetter(t, n, i))
            && forall n: nat | IsDeadLetter(t, n, i) ::
                 && Outbox.PublicationOf(t.outbox[n]).task == Task(t.exec, i, t.rows[i].name, t.rows[i].key)
                 && (DeadLetterQueue(t.rows[i].name) in Reached(bindings, t.outbox[n]) <==> t.rows[i].name in names)
  {
    hide RunMoves, Routes, Declared, DeadLetterQueue, TopicMatches;
    RunTells(wf, exec, moves);
    var t := RunMoves(wf, Begin(exec, wf), moves).t;
    var name := t.rows[i].name;
    ActivityRoutes(bindings, names, name, None);
    MatchesItself(name);
    forall n | n in names && DeadLetterQueue(n) == DeadLetterQueue(name) ensures n == name { LettersTell(n, name); }
  }
}
