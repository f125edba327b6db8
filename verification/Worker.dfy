/** The worker: what becomes of one delivery, and how many are worked on at once. */
module Worker {
  import opened Models
  import opened Repository
  import opened Broker

  /******* One delivery *******/

  /** A task as the broker hands it over; `None` is a body that does not parse. */
  datatype Delivery = Delivery(tag: nat, task: Option<Task>)

  /** What the handler of an activity comes back with. */
  datatype Returned = Ok | Error(nonRetryable: bool)

  datatype Verdict = Acked | Requeued | Discarded

  /** What the broker is told about a delivery. */
  datatype Settlement = Settlement(tag: nat, verdict: Verdict)

  class Worker {
    const mq: RabbitMQ
    const execRepo: ExecutionRepo
    const capacity: nat
    var activities: set<string>
    /** Slots taken. */
    var sem: nat
    var wg: nat
    /** What the broker was told, in order. */
    ghost var settlements: seq<Settlement>

    constructor (mq: RabbitMQ, execRepo: ExecutionRepo, maxConcurrency: int)
      ensures this.mq == mq && this.execRepo == execRepo
      ensures capacity == if maxConcurrency <= 0 then 100 else maxConcurrency
      ensures capacity > 0 && sem == 0 && wg == 0 && activities == {} && settlements == []
    {
      this.mq, this.execRepo := mq, execRepo;
      capacity := if maxConcurrency <= 0 then 100 else maxConcurrency;
      activities, sem, wg, settlements := {}, 0, 0, [];
    }

    method RegisterActivity(name: string)
      modifies this`activities
      ensures activities == old(activities) + {name}
    {
      activities := activities + {name};
    }

    method Settle(d: Delivery, verdict: Verdict)
      modifies this`settlements
      ensures settlements == old(settlements) + [Settlement(d.tag, verdict)]
    {
      settlements := settlements + [Settlement(d.tag, verdict)];
    }

    /** The row of a task, if there is one. */
    ghost function RowOf(task: Task): Option<ActivityRow>
      requires execRepo.Valid()
      reads execRepo
    {
      if task.exec in execRepo.executions && task.activityId < |execRepo.Slice(task.exec).rows| then
        Some(execRepo.Slice(task.exec).rows[task.activityId])
      else None
    }

    /**
     * The body of the goroutine that works on a delivery, once it has its slot. `returned` is what the handler
     * comes back with; the database read and the publication of the result may fail.
     */
    method Work(d: Delivery, activityName: string, returned: Returned, readFails: bool, publishFails: bool)
      returns (verdict: Verdict)
      requires execRepo.Valid() && sem > 0 && wg > 0
      modifies this`sem, this`wg, this`settlements, mq`results
      ensures sem == old(sem) - 1 && wg == old(wg) - 1
      ensures settlements == old(settlements) + [Settlement(d.tag, verdict)]
      ensures verdict == Discarded <==> d.task.None?
      ensures d.task.Some? ==>
                var task, row := d.task.value, RowOf(d.task.value);
                var finished := !readFails && row.Some? && row.value.status in {RowCompleted, RowFailed};
                && (verdict == Requeued <==> !finished && publishFails)
                && if finished || publishFails then mq.results == old(mq.results)
                   else
                     && |mq.results| == |old(mq.results)| + 1 && mq.results[..|old(mq.results)|] == old(mq.results)
                     && var sent := mq.results[|old(mq.results)|];
                        && sent.exchange == RESULTS_EXCHANGE && sent.key == "result"
                        && sent.res.exec == task.exec && sent.res.id == task.activityId
                        && sent.res.name == activityName
                        && (sent.res.success <==> returned.Ok?)
                        && (sent.res.nonRetryable <==> returned == Error(true))
      ensures d.task.None? ==> mq.results == old(mq.results)
    {
      hide ExecutionRepo.Valid, ExecutionRepo.View;
      match d.task {
        case None =>
          verdict := Discarded;
        case Some(task) =>
          var finished := false;
          if !readFails {
            var actExec := execRepo.GetActivityExecution(task.exec, task.activityId);
            finished := actExec.Some? && (actExec.value.status == RowCompleted || actExec.value.status == RowFailed);
          }
          if finished {
            verdict := Acked;
          } else {
            var res := ResultMessage(task.exec, task.activityId, activityName, false, false);
            if returned.Error? {
              if returned.nonRetryable {
                res := res.(nonRetryable := true);
              }
            } else {
              res := res.(success := true);
            }
            var published := mq.PublishResult(res, publishFails);
            verdict := if published then Acked else Requeued;
          }
      }
      Settle(d, verdict);
      sem := sem - 1;
      wg := wg - 1;
    }

    /** Takes a slot; a consumer waits until there is one. */
    method TakeSlot()
      requires sem < capacity
      modifies this`sem
      ensures sem == old(sem) + 1
    {
      sem := sem + 1;
    }

    /** Counts the goroutine about to be started. */
    method AddOne()
      modifies this`wg
      ensures wg == old(wg) + 1
    {
      wg := wg + 1;
    }
  }

  /******* Any number of deliveries at once *******/

  /**
   * Where a delivery stands. `Waiting` is in a consumer's hands without a slot, `Slotted` with one but not counted
   * yet; `Freed` has given its slot back and is still counted.
   */
  datatype Stage =
    | Waiting
    | Slotted
    | Started
    | Parsed
    | InHandler
    | Returning(returned: Returned)
    | Published
    | Finished
    | Freed
    | Gone

  /**
   * `told` is what the broker was told about the delivery; `published` whether its result was published; `finished`
   * whether its row was found finished.
   */
  datatype Entry = Entry(consumer: nat, stage: Stage, told: seq<Verdict>, published: bool, finished: bool)

  /** Free slots, the wait group, and every delivery ever taken. */
  datatype State = State(free: nat, wg: nat, entries: map<nat, Entry>)

  datatype Step =
    | Receive(tag: nat, consumer: nat)
    | TakeSlot(tag: nat)
    | Add(tag: nat)
    | Cancel(tag: nat)
    | Parse(tag: nat, ok: bool)
    | Check(tag: nat, settled: bool)
    | Run(tag: nat, returned: Returned)
    | PublishResult(tag: nat, fails: bool)
    | Acknowledge(tag: nat)
    | FreeSlot(tag: nat)
    | Done(tag: nat)

  /** A slot is taken before the goroutine is counted and started, and given back before it is done. */
  predicate HasSlot(stage: Stage) {
    stage != Waiting && stage != Freed && stage != Gone
  }

  /** Between being added to the wait group and being done. */
  predicate IsCounted(stage: Stage) {
    stage != Waiting && stage != Slotted && stage != Gone
  }

  /** The broker has not heard of the delivery yet. */
  predicate Unsettled(stage: Stage) {
    stage != Finished && stage != Freed && stage != Gone
  }

  /** In the hands of a consumer, which takes no other delivery meanwhile. */
  predicate AtConsumer(stage: Stage) {
    stage == Waiting || stage == Slotted
  }

  predicate Idle(s: State, consumer: nat) {
    forall tag | tag in s.entries :: s.entries[tag].consumer == consumer ==> !AtConsumer(s.entries[tag].stage)
  }

  predicate Enabled(consumers: nat, s: State, step: Step) {
    if step.Receive? then
      step.tag !in s.entries && step.consumer < consumers && Idle(s, step.consumer)
    else
      step.tag in s.entries &&
      var stage := s.entries[step.tag].stage;
      match step
      case TakeSlot(_) => stage == Waiting && s.free > 0
      case Add(_) => stage == Slotted
      case Cancel(_) => stage == Waiting
      case Parse(_, _) => stage == Started
      case Check(_, _) => stage == Parsed
      case Run(_, _) => stage == InHandler
      case PublishResult(_, _) => stage.Returning?
      case Acknowledge(_) => stage == Published
      case FreeSlot(_) => stage == Finished
      case Done(_) => stage == Freed && s.wg > 0
  }

  function After(e: Entry, step: Step): Entry {
    match step
    case Receive(_, _) => e
    case TakeSlot(_) => e.(stage := Slotted)
    case Add(_) => e.(stage := Started)
    case Cancel(_) => e.(stage := Gone, told := e.told + [Requeued])
    case Parse(_, ok) => if ok then e.(stage := Parsed) else e.(stage := Finished, told := e.told + [Discarded])
    case Check(_, settled) =>
      if settled then e.(stage := Finished, finished := true, told := e.told + [Acked]) else e.(stage := InHandler)
    case Run(_, returned) => e.(stage := Returning(returned))
    case PublishResult(_, fails) =>
      if fails then e.(stage := Finished, told := e.told + [Requeued]) else e.(stage := Published, published := true)
    case Acknowledge(_) => e.(stage := Finished, told := e.told + [Acked])
    case FreeSlot(_) => e.(stage := Freed)
    case Done(_) => e.(stage := Gone)
  }

  function Next(s: State, step: Step): State
    requires step.Receive? || step.tag in s.entries
    requires step.TakeSlot? ==> s.free > 0
    requires step.Done? ==> s.wg > 0
  {
    if step.Receive? then s.(entries := s.entries[step.tag := Entry(step.consumer, Waiting, [], false, false)])
    else
      var s' := s.(entries := s.entries[step.tag := After(s.entries[step.tag], step)]);
      match step
      case TakeSlot(_) => s'.(free := s.free - 1)
      case Add(_) => s'.(wg := s.wg + 1)
      case FreeSlot(_) => s'.(free := s.free + 1)
      case Done(_) => s'.(wg := s.wg - 1)
      case _ => s'
  }

  /** A step that is not enabled is not taken. */
  function RunSteps(consumers: nat, s: State, steps: seq<Step>): State {
    if steps == [] then s
    else
      var s' := RunSteps(consumers, s, steps[..|steps| - 1]);
      if Enabled(consumers, s', steps[|steps| - 1]) then Next(s', steps[|steps| - 1]) else s'
  }

  function Holders(s: State): set<nat> {
    set tag | tag in s.entries && HasSlot(s.entries[tag].stage)
  }

  function Counted(s: State): set<nat> {
    set tag | tag in s.entries && IsCounted(s.entries[tag].stage)
  }

  function InHand(s: State): set<nat> {
    set tag | tag in s.entries && Unsettled(s.entries[tag].stage)
  }

  function WaitingTags(s: State): set<nat> {
    set tag | tag in s.entries && s.entries[tag].stage == Waiting
  }

  /** A delivery is settled once, and acknowledged only after its result was published or its row found finished. */
  predicate SettledOnce(e: Entry) {
    && |e.told| == (if Unsettled(e.stage) then 0 else 1)
    && (Acked in e.told ==> e.published || e.finished)
    && (e.stage == Published ==> e.published)
    && (e.published ==> e.stage == Published || e.told == [Acked])
  }

  predicate SlotsAddUp(capacity: nat, s: State) {
    s.free + |Holders(s)| == capacity && s.wg == |Counted(s)|
  }

  /** A consumer has at most one delivery in its own hands. */
  predicate OneEach(consumers: nat, s: State) {
    && (forall tag | tag in s.entries :: s.entries[tag].consumer < consumers)
    && (forall a, b | a in s.entries && b in s.entries && a != b ::
          AtConsumer(s.entries[a].stage) && AtConsumer(s.entries[b].stage) ==>
              s.entries[a].consumer != s.entries[b].consumer)
  }

  predicate Consistent(capacity: nat, consumers: nat, s: State) {
    && SlotsAddUp(capacity, s) && OneEach(consumers, s)
    && (forall tag | tag in s.entries :: SettledOnce(s.entries[tag]))
  }

  /** The step is one that the delivery's stage allows. */
  predicate Follows(stage: Stage, step: Step) {
    match step
    case Receive(_, _) => false
    case TakeSlot(_) => stage == Waiting
    case Add(_) => stage == Slotted
    case Cancel(_) => stage == Waiting
    case Parse(_, _) => stage == Started
    case Check(_, _) => stage == Parsed
    case Run(_, _) => stage == InHandler
    case PublishResult(_, _) => stage.Returning?
    case Acknowledge(_) => stage == Published
    case FreeSlot(_) => stage == Finished
    case Done(_) => stage == Freed
  }

  function One(b: bool): int {
    if b then 1 else 0
  }

  lemma {:induction false} TagsAfter(s: State, s': State, tag: nat, e: Entry)
    requires tag in s.entries && s'.entries == s.entries[tag := e]
    ensures Holders(s') == if HasSlot(e.stage) then Holders(s) + {tag} else Holders(s) - {tag}
    ensures Counted(s') == if IsCounted(e.stage) then Counted(s) + {tag} else Counted(s) - {tag}
    ensures tag in Holders(s) <==> HasSlot(s.entries[tag].stage)
    ensures tag in Counted(s) <==> IsCounted(s.entries[tag].stage)
  {
    hide HasSlot, IsCounted;
  }

  lemma {:induction false} CountAfter(tags: set<nat>, tags': set<nat>, tag: nat, stays: bool)
    requires tags' == if stays then tags + {tag} else tags - {tag}
    ensures |tags'| == |tags| - One(tag in tags) + One(stays)
  {
    assert tag in tags ==> tags + {tag} == tags;
    assert tag !in tags ==> tags - {tag} == tags;
  }

  lemma {:induction false} CountsAfter(s: State, s': State, tag: nat, e: Entry)
    requires tag in s.entries && s'.entries == s.entries[tag := e]
    ensures |Holders(s')| == |Holders(s)| - One(HasSlot(s.entries[tag].stage)) + One(HasSlot(e.stage))
    ensures |Counted(s')| == |Counted(s)| - One(IsCounted(s.entries[tag].stage)) + One(IsCounted(e.stage))
  {
    hide Holders, Counted, HasSlot, IsCounted;
    TagsAfter(s, s', tag, e);
    CountAfter(Holders(s), Holders(s'), tag, HasSlot(e.stage));
    CountAfter(Counted(s), Counted(s'), tag, IsCounted(e.stage));
  }

  /** A slot taken is one free slot less, and a goroutine added one more to wait for. */
  lemma {:induction false} NumbersAfter(s: State, step: Step)
    requires step.tag in s.entries && Follows(s.entries[step.tag].stage, step)
    requires (step.TakeSlot? ==> s.free > 0) && (step.Done? ==> s.wg > 0)
    ensures var e, s', e' := s.entries[step.tag], Next(s, step), After(s.entries[step.tag], step);
            && s'.entries == s.entries[step.tag := e']
            && s'.free == s.free + One(HasSlot(e.stage)) - One(HasSlot(e'.stage))
            && s'.wg == s.wg - One(IsCounted(e.stage)) + One(IsCounted(e'.stage))
  {
  }

  lemma {:induction false} ReceiveKeepsTags(s: State, tag: nat, consumer: nat)
    requires tag !in s.entries
    ensures Holders(Next(s, Receive(tag, consumer))) == Holders(s)
    ensures Counted(Next(s, Receive(tag, consumer))) == Counted(s)
  {
  }

  lemma {:induction false} SlotsKept(capacity: nat, consumers: nat, s: State, step: Step)
    requires SlotsAddUp(capacity, s) && Enabled(consumers, s, step)
    ensures SlotsAddUp(capacity, Next(s, step))
  {
    hide Holders, Counted, HasSlot, IsCounted, One, After;
    if step.Receive? {
      ReceiveKeepsTags(s, step.tag, step.consumer);
    } else {
      NumbersAfter(s, step);
      CountsAfter(s, Next(s, step), step.tag, After(s.entries[step.tag], step));
    }
  }

  lemma {:induction false} OneEachKept(consumers: nat, s: State, step: Step)
    requires OneEach(consumers, s) && Enabled(consumers, s, step)
    ensures OneEach(consumers, Next(s, step))
  {
  }

  lemma {:induction false} NextKeeps(capacity: nat, consumers: nat, s: State, step: Step)
    requires Consistent(capacity, consumers, s) && Enabled(consumers, s, step)
    ensures Consistent(capacity, consumers, Next(s, step))
  {
    hide SlotsAddUp, OneEach, SettledOnce, Idle;
    SlotsKept(capacity, consumers, s, step);
    OneEachKept(consumers, s, step);
    if step.Receive? {
      assert SettledOnce(Entry(step.consumer, Waiting, [], false, false)) by { NewIsUnsettled(step.consumer); }
    } else {
      EntryKeeps(s.entries[step.tag], step);
    }
  }

  lemma {:induction false} NewIsUnsettled(consumer: nat)
    ensures SettledOnce(Entry(consumer, Waiting, [], false, false))
  {
  }

  lemma {:induction false} EntryKeeps(e: Entry, step: Step)
    requires SettledOnce(e) && Follows(e.stage, step)
    ensures SettledOnce(After(e, step))
  {
  }

  lemma {:induction false} RunIsConsistent(capacity: nat, consumers: nat, steps: seq<Step>)
    ensures Consistent(capacity, consumers, RunSteps(consumers, State(capacity, 0, map[]), steps))
  {
    if steps == [] {
      assert Holders(State(capacity, 0, map[])) == {} && Counted(State(capacity, 0, map[])) == {};
    } else {
      RunIsConsistent(capacity, consumers, steps[..|steps| - 1]);
      var s := RunSteps(consumers, State(capacity, 0, map[]), steps[..|steps| - 1]);
      if Enabled(consumers, s, steps[|steps| - 1]) { NextKeeps(capacity, consumers, s, steps[|steps| - 1]); }
    }
  }

  /******* What one delivery is told *******/

  /** The stages of a goroutine, one after the other: what it finds, and what the broker is told in the end. */
  function Worked(e: Entry, parses: bool, finished: bool, returned: Returned, publishFails: bool): Entry {
    var tag := 0;
    var e1 := After(After(e, Add(tag)), Parse(tag, parses));
    if !parses then e1
    else
      var e2 := After(e1, Check(tag, finished));
      if finished then e2
      else
        var e3 := After(After(e2, Run(tag, returned)), PublishResult(tag, publishFails));
        if publishFails then e3 else After(e3, Acknowledge(tag))
  }

  /** As the goroutine itself answers: see `Worker.Work`. */
  lemma {:induction false} StagesAnswer(e: Entry, parses: bool, finished: bool, returned: Returned, publishFails: bool)
    requires e.stage == Slotted && e.told == [] && !e.published
    ensures var e' := Worked(e, parses, finished, returned, publishFails);
            && e'.stage == Finished && |e'.told| == 1
            && (e'.told[0] == Discarded <==> !parses)
            && (e'.told[0] == Requeued <==> parses && !finished && publishFails)
            && (e'.told[0] == Acked <==> parses && (finished || !publishFails))
            && (e'.published <==> parses && !finished && !publishFails)
    ensures forall tag :: After(e.(stage := Waiting), Cancel(tag)).told == [Requeued]
  {
  }

  /******* What it means *******/

  lemma {:induction false} FewerThan(bound: nat, tags: set<nat>, of: map<nat, nat>)
    requires forall tag | tag in tags :: tag in of && of[tag] < bound
    requires forall a, b | a in tags && b in tags && a != b :: of[a] != of[b]
    ensures |tags| <= bound
  {
    if tags != {} {
      var last :| last in tags;
      if bound > 0 && forall tag | tag in tags :: of[tag] != bound - 1 {
        FewerThan(bound - 1, tags, of);
      } else {
        var top :| top in tags && of[top] == bound - 1;
        FewerThan(bound - 1, tags - {top}, of);
      }
    }
  }

  lemma {:induction false} SubsetCount(a: set<nat>, b: set<nat>)
    requires a <= b
    ensures |a| <= |b|
  {
    assert b == a + (b - a);
  }

  lemma {:induction false} WaitingAreFew(capacity: nat, consumers: nat, s: State)
    requires Consistent(capacity, consumers, s)
    ensures |WaitingTags(s)| <= consumers
  {
    hide Holders, SettledOnce;
    var of := map tag | tag in s.entries :: s.entries[tag].consumer;
    FewerThan(consumers, WaitingTags(s), of);
  }

  /**
   * For any number of consumers and any interleaving: slots taken never outnumber the capacity and with the free ones
   * add up to it, and the wait group counts exactly the goroutines between being added and being done.
   */
  lemma {:induction false} SlotsAreKept(capacity: nat, consumers: nat, steps: seq<Step>)
    ensures var s := RunSteps(consumers, State(capacity, 0, map[]), steps);
            |Holders(s)| <= capacity && s.free + |Holders(s)| == capacity && s.wg == |Counted(s)|
  {
    RunIsConsistent(capacity, consumers, steps);
  }

  /**
   * A delivery run to completion is settled exactly once, and acknowledged only for a published result or a finished
   * row.
   */
  lemma {:induction false} SettledExactlyOnce(capacity: nat, consumers: nat, steps: seq<Step>, tag: nat)
    requires var s := RunSteps(consumers, State(capacity, 0, map[]), steps); tag in s.entries
    ensures var e := RunSteps(consumers, State(capacity, 0, map[]), steps).entries[tag];
            && |e.told| <= 1
            && (e.stage == Gone ==> |e.told| == 1)
            && (e.told == [Acked] ==> e.published || e.finished)
            && (e.published && e.stage == Gone ==> e.told == [Acked])
  {
    RunIsConsistent(capacity, consumers, steps);
  }

  /** Backpressure: deliveries the broker waits to hear about are at most one per slot and one per consumer. */
  lemma {:induction false} InHandIsBounded(capacity: nat, consumers: nat, steps: seq<Step>)
    ensures |InHand(RunSteps(consumers, State(capacity, 0, map[]), steps))| <= capacity + consumers
  {
    RunIsConsistent(capacity, consumers, steps);
    var s := RunSteps(consumers, State(capacity, 0, map[]), steps);
    WaitingAreFew(capacity, consumers, s);
    SubsetCount(InHand(s), Holders(s) + WaitingTags(s));
  }

  lemma {:induction false} NoneMeansEmpty(s: State)
    ensures |Holders(s)| == 0 <==> forall tag | tag in s.entries :: !HasSlot(s.entries[tag].stage)
    ensures |Counted(s)| == 0 <==> forall tag | tag in s.entries :: !IsCounted(s.entries[tag].stage)
  {
    forall tag | tag in s.entries
      ensures HasSlot(s.entries[tag].stage) ==> |Holders(s)| > 0
      ensures IsCounted(s.entries[tag].stage) ==> |Counted(s)| > 0
    {
      if HasSlot(s.entries[tag].stage) { SubsetCount({tag}, Holders(s)); }
      if IsCounted(s.entries[tag].stage) { SubsetCount({tag}, Counted(s)); }
    }
    if |Holders(s)| > 0 {
      var tag :| tag in Holders(s);
      assert HasSlot(s.entries[tag].stage);
    }
    if |Counted(s)| > 0 {
      var tag :| tag in Counted(s);
      assert IsCounted(s.entries[tag].stage);
    }
  }

  /**
   * Draining: the wait group is at zero exactly when no goroutine is between being added and being done. All slots
   * are free then, and everything that ever had one is settled and let go, exactly when no consumer has just taken
   * a slot for a goroutine that it has not added yet.
   */
  lemma {:induction false} DrainedMeansDone(capacity: nat, consumers: nat, steps: seq<Step>)
    ensures var s := RunSteps(consumers, State(capacity, 0, map[]), steps);
            && (s.wg == 0 <==> forall tag | tag in s.entries :: !IsCounted(s.entries[tag].stage))
            && (s.wg == 0 ==>
                  (s.free == capacity <==> forall tag | tag in s.entries :: s.entries[tag].stage != Slotted))
  {
    RunIsConsistent(capacity, consumers, steps);
    NoneMeansEmpty(RunSteps(consumers, State(capacity, 0, map[]), steps));
  }

  /** So a shutdown can take the worker for drained while a delivery holds a slot and has not been answered. */
  lemma {:induction false} DrainedTooEarly(capacity: nat, consumers: nat)
    requires capacity > 0 && consumers > 0
    ensures var s := RunSteps(consumers, State(capacity, 0, map[]), [Receive(0, 0), TakeSlot(0)]);
            s.wg == 0 && s.free < capacity && 0 in InHand(s)
  {
    var start, first, both := State(capacity, 0, map[]), [Step.Receive(0, 0)], [Step.Receive(0, 0), Step.TakeSlot(0)];
    assert both[..1] == first && first[..0] == [];
    assert RunSteps(consumers, start, []) == start;
    assert RunSteps(consumers, start, first) == State(capacity, 0, map[0 := Entry(0, Waiting, [], false, false)]);
  }
}
