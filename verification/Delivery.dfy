/**
 * The way of a task: outbox, parking queue, activity queue, worker, result queue, engine, and back. Publications
 * fail, messages are requeued, workers and engines die. A task published before any worker has registered its
 * activity is dropped by the broker; but for that, a pending row always has something on its way.
 */
module Delivery {
  import opened Models
  import opened Backoff
  import opened Compensation
  import opened Tables
  import opened Adversary
  import opened Refinement
  import opened Broker
  import Outbox

  /** A message in a queue, or taken from it and not acknowledged yet. */
  datatype Token =
    | Parked(id: nat)
    | Queued(id: nat)
    | Taken(id: nat)
    | Reported(id: nat)
    | ResultQueued(id: nat, res: Outcome)
    | Handling(id: nat, res: Outcome)

  /**
   * `registered` are the activities whose queues some worker has declared; `sent` and `deleted` hold positions in the
   * outbox of messages published, and deleted since.
   */
  datatype Network = Network(
    t: Tables,
    registered: set<string>,
    sent: set<nat>,
    deleted: set<nat>,
    tokens: multiset<Token>)

  /** Where a handler died: before its first transaction, between the two, or before its acknowledgement. */
  datatype Cut = AtStart | Between | AtEnd

  datatype Step =
    | Register(name: string)
    | CommitOther(tx: Tx)
    | Retry(call: Call)
    | Publish(n: nat)
    | Delete(n: nat)
    | Expire(id: nat)
    | Take(id: nat)
    | Skip(id: nat)
    | Report(id: nat, res: Outcome)
    | AckTask(id: nat)
    | Requeue(id: nat)
    | WorkerDies(id: nat)
    | TakeResult(id: nat, res: Outcome)
    | HandleResult(id: nat, res: Outcome)
    | HandlerDies(id: nat, res: Outcome, cut: Cut)
    | Timeout(id: nat)

  /** The queues a publication reaches when the workers of `registered` have declared theirs. */
  ghost function Reaches(registered: set<string>, exchange: string, key: string, tier: Option<int>): set<string> {
    Routes(BaseBindings() + ActivityBindings(registered), exchange, key, tier)
  }

  /** A task sent to the workflow exchange is in the queue of its activity, or nowhere. */
  ghost function ToActivity(registered: set<string>, name: string, id: nat): multiset<Token> {
    if ActivityQueue(name) in Reaches(registered, WORKFLOW_EXCHANGE, name, None) then multiset{Queued(id)}
    else multiset{}
  }

  /** A result is in the engine's queue, or nowhere. */
  ghost function ToEngine(registered: set<string>, id: nat, res: Outcome): multiset<Token> {
    if RESULTS_QUEUE in Reaches(registered, RESULTS_EXCHANGE, "result", None) then multiset{ResultQueued(id, res)}
    else multiset{}
  }

  /** It always is in the queue. */
  lemma {:induction false} ToEngineAlways(registered: set<string>, id: nat, res: Outcome)
    ensures ToEngine(registered, id, res) == multiset{ResultQueued(id, res)}
  {
    hide BaseBindings, ActivityBindings, Routes;
    ResultsReachTheEngine(BaseBindings() + ActivityBindings(registered), registered);
  }

  /** What a publication turns into: a queued task, a parked one, a dead letter, or nothing. */
  ghost function Routed(registered: set<string>, m: OutboxMessage): multiset<Token> {
    var p := Outbox.PublicationOf(m);
    if p.exchange == WORKFLOW_EXCHANGE then ToActivity(registered, p.key, m.task.activityId)
    else if p.exchange == RETRY_EXCHANGE && Reaches(registered, p.exchange, p.key, p.tier) != {} then
      multiset{Parked(m.task.activityId)}
    else multiset{}
  }

  lemma {:induction false} ToActivityIf(registered: set<string>, name: string, id: nat)
    ensures ToActivity(registered, name, id) == if name in registered then multiset{Queued(id)} else multiset{}
  {
    hide BaseBindings, ActivityBindings, Routes, ActivityQueue;
    TasksReachTheirQueue(BaseBindings() + ActivityBindings(registered), registered, name, None);
  }

  /** By the tier: tasks for registered activities are queued, retries of declared tiers parked, the rest is gone. */
  lemma {:induction false} RoutedByTier(registered: set<string>, m: OutboxMessage)
    ensures Routed(registered, m) ==
            if m.tier == DLQ_TIER then multiset{}
            else if m.tier == 0 then if m.topic in registered then multiset{Queued(m.task.activityId)} else multiset{}
            else if m.tier in RETRY_TIERS then multiset{Parked(m.task.activityId)}
            else multiset{}
  {
    hide BaseBindings, ActivityBindings, Routes, ToActivity, ParkingQueue;
    ToActivityIf(registered, m.topic, m.task.activityId);
    RetriesAreParked(BaseBindings() + ActivityBindings(registered), registered, m.topic, m.tier);
  }

  function CallOfResult(id: nat, res: Outcome): Call {
    match res
    case Succeeds => ReportSuccess(id)
    case Fails(nonRetryable) => ReportFailure(id, nonRetryable)
  }

  predicate IsRetry(call: Call) {
    call.RetryCompensation? || call.RetryDeadLettered?
  }

  /**
   * The code's order of things: only what was published is deleted; a task is acknowledged after its result was
   * published or when its row is settled; a result after its handler returned without an error.
   */
  ghost predicate Possible(wf: Workflow, w: Network, s: Step) {
    match s
    case Register(_) => true
    case CommitOther(tx) => Lawful(wf, w.t, tx)
    case Retry(call) => IsRetry(call) && GoodListing(w.t, call)
    case Publish(n) => n < |w.t.outbox| && n !in w.deleted
    case Delete(n) => n in w.sent
    case Expire(id) => Parked(id) in w.tokens
    case Take(id) => Queued(id) in w.tokens
    case Skip(id) => Taken(id) in w.tokens && id < |w.t.rows| && Settled(w.t.rows[id])
    case Report(id, _) => Taken(id) in w.tokens
    case AckTask(id) => Reported(id) in w.tokens
    case Requeue(id) => Taken(id) in w.tokens
    case WorkerDies(id) => Reported(id) in w.tokens
    case TakeResult(id, res) => ResultQueued(id, res) in w.tokens
    case HandleResult(id, res) => Handling(id, res) in w.tokens
    case HandlerDies(id, res, _) => Handling(id, res) in w.tokens
    case Timeout(id) => IsPending(w.t, id)
  }

  /** The name of the row that a task is for. */
  function NameOf(t: Tables, id: nat): string {
    if id < |t.rows| then t.rows[id].name else ""
  }

  /** The tokens a step takes away and puts in place. An expired task goes the way of a published one. */
  ghost function Swap(wf: Workflow, w: Network, s: Step): (multiset<Token>, multiset<Token>)
    requires Possible(wf, w, s)
  {
    match s
    case Publish(n) => (multiset{}, Routed(w.registered, w.t.outbox[n]))
    case Expire(id) => (multiset{Parked(id)}, ToActivity(w.registered, NameOf(w.t, id), id))
    case Take(id) => (multiset{Queued(id)}, multiset{Taken(id)})
    case Skip(id) => (multiset{Taken(id)}, multiset{})
    case Report(id, res) => (multiset{Taken(id)}, multiset{Reported(id)} + ToEngine(w.registered, id, res))
    case AckTask(id) => (multiset{Reported(id)}, multiset{})
    case Requeue(id) => (multiset{Taken(id)}, multiset{Queued(id)})
    case WorkerDies(id) => (multiset{Reported(id)}, multiset{Queued(id)})
    case TakeResult(id, res) => (multiset{ResultQueued(id, res)}, multiset{Handling(id, res)})
    case HandleResult(id, res) =>
      (multiset{Handling(id, res)},
       if Handle(wf, w.t, CallOfResult(id, res)).ok then multiset{} else multiset{ResultQueued(id, res)})
    case HandlerDies(id, res, _) => (multiset{Handling(id, res)}, multiset{ResultQueued(id, res)})
    case _ => (multiset{}, multiset{})
  }

  /** What a step does to the tables. */
  ghost function TablesAfter(wf: Workflow, w: Network, s: Step): Tables
    requires Possible(wf, w, s)
  {
    match s
    case CommitOther(tx) => Commit(w.t, tx).t
    case Retry(call) => Handle(wf, w.t, call).t
    case HandleResult(id, res) => Handle(wf, w.t, CallOfResult(id, res)).t
    case HandlerDies(id, res, cut) =>
      (match cut
       case AtStart => w.t
       case Between => HandleCrashed(wf, w.t, CallOfResult(id, res))
       case AtEnd => Handle(wf, w.t, CallOfResult(id, res)).t)
    case Timeout(id) => Handle(wf, w.t, ReportFailure(id, false)).t
    case _ => w.t
  }

  ghost function Next(wf: Workflow, w: Network, s: Step): Network
    requires Possible(wf, w, s)
  {
    Network(TablesAfter(wf, w, s),
            if s.Register? then w.registered + {s.name} else w.registered,
            if s.Publish? then w.sent + {s.n} else w.sent,
            if s.Delete? then w.deleted + {s.n} else w.deleted,
            w.tokens - Swap(wf, w, s).0 + Swap(wf, w, s).1)
  }

  /** A step that is not possible is not taken. */
  ghost function RunSteps(wf: Workflow, w: Network, steps: seq<Step>): Network {
    if steps == [] then w
    else
      var w' := RunSteps(wf, w, steps[..|steps| - 1]);
      if Possible(wf, w', steps[|steps| - 1]) then Next(wf, w', steps[|steps| - 1]) else w'
  }

  function Fresh(exec: string, wf: Workflow, registered: set<string>): Network {
    Network(Create(exec, wf), registered, {}, {}, multiset{})
  }

  /******* Something is on its way *******/

  ghost predicate IsUnsent(w: Network, i: nat, n: nat) {
    n < |w.t.outbox| && n !in w.sent && w.t.outbox[n].tier != DLQ_TIER && w.t.outbox[n].task.activityId == i
  }

  ghost predicate InFlight(tokens: multiset<Token>, i: nat) {
    exists k | k in tokens :: k.id == i && !k.Reported?
  }

  /** A message still to be published, or one in a queue or in someone's hands. */
  ghost predicate OnItsWay(w: Network, i: nat) {
    (exists n :: IsUnsent(w, i, n)) || InFlight(w.tokens, i)
  }

  predicate TiersDeclared(outbox: seq<OutboxMessage>) {
    forall n | 0 <= n < |outbox| :: outbox[n].tier == DLQ_TIER || outbox[n].tier == 0 || outbox[n].tier in RETRY_TIERS
  }

  /** What holds whatever is lost: the tables are sound, and messages and marks are of messages that exist. */
  ghost predicate Kept(w: Network) {
    && Sound(w.t) && TiersDeclared(w.t.outbox)
    && w.deleted <= w.sent && (forall n | n in w.sent :: n < |w.t.outbox|)
    && (forall k | k in w.tokens :: k.id < |w.t.rows|)
  }

  /** Every pending row has something on its way. */
  ghost predicate NothingLost(w: Network) {
    forall i {:trigger OnItsWay(w, i)} | IsPending(w.t, i) :: OnItsWay(w, i)
  }

  /** `t'` keeps outbox and rows of `t`, and every row pending in it was pending before or came with a task message. */
  ghost predicate Extends(t: Tables, t': Tables) {
    && t.outbox <= t'.outbox && |t.rows| <= |t'.rows|
    && (forall i | 0 <= i < |t.rows| :: t'.rows[i].name == t.rows[i].name)
    && (forall i | IsPending(t', i) :: IsPending(t, i) || HasNewTask(t, t', i))
  }

  ghost predicate HasNewTask(t: Tables, t': Tables, i: nat) {
    exists n :: |t.outbox| <= n < |t'.outbox| && t'.outbox[n].tier != DLQ_TIER && t'.outbox[n].task.activityId == i
  }

  lemma {:induction false} ExtendsTwice(t: Tables, t1: Tables, t2: Tables)
    requires Extends(t, t1) && Extends(t1, t2)
    ensures Extends(t, t2)
  {
  }

  lemma {:induction false} LaunchExtends(t: Tables, status: ExecutionStatus, name: string, attempt: Attempt,
      event: Event, tier: int)
    requires tier != DLQ_TIER
    ensures Extends(t, Launch(t, status, name, attempt, event, tier).t)
    ensures TiersDeclared(t.outbox) && (tier == 0 || tier in RETRY_TIERS || !FitsInt32(tier)) ==>
              TiersDeclared(Launch(t, status, name, attempt, event, tier).t.outbox)
  {
    hide KeyTaken, FitsInt32;
    var r := Launch(t, status, name, attempt, event, tier);
    if r.ok {
      var n := |t.outbox|;
      assert r.t.outbox[n] == Message(t, |t.rows|, name, r.t.rows[|t.rows|].key, tier);
      forall i | IsPending(r.t, i) && !IsPending(t, i) ensures HasNewTask(t, r.t, i) {
        assert i == |t.rows| && r.t.outbox[n].task.activityId == i;
      }
    }
  }

  /** What the tier column accepts names a parking queue or none; the one tier that names neither is refused. */
  lemma {:induction false} LawfulTier(wf: Workflow, t: Tables, tx: Tx)
    requires Lawful(wf, t, tx) && tx.ScheduleNextActivity?
    ensures tx.tier == 0 || tx.tier in RETRY_TIERS || !FitsInt32(tx.tier)
    ensures tx.tier != DLQ_TIER
  {
    if tx.attempt > 1 {
      TierExact(tx.attempt);
      TierIsNotDlq(tx.attempt);
    }
  }

  lemma {:induction false} CommitExtends(wf: Workflow, t: Tables, tx: Tx)
    requires Lawful(wf, t, tx)
    ensures Extends(t, Commit(t, tx).t)
    ensures TiersDeclared(t.outbox) ==> TiersDeclared(Commit(t, tx).t.outbox)
  {
    hide Launch;
    match tx
    case ScheduleNextActivity(next, attempt, tier) =>
      LawfulTier(wf, t, tx);
      LaunchExtends(t, t.status, next, attempt,
          ActivityScheduled(next, if attempt == 1 then None else Some(attempt), false), tier);
    case StartCompensating(next, attempt, manual) =>
      LaunchExtends(t, Compensating, next, attempt,
          CompensationStarted(next, if manual then Some(attempt) else None, manual), 0);
    case RetryActivity(comp, next, attempt) =>
      if comp {
        LaunchExtends(t, Compensating, next, attempt, CompensationStarted(next, Some(attempt), true), 0);
      } else {
        LaunchExtends(t, Running, next, attempt, ActivityScheduled(next, Some(attempt), true), 0);
      }
    case _ =>
  }

  lemma {:induction false} HandleExtends(wf: Workflow, t: Tables, call: Call)
    requires Sound(t) && GoodListing(t, call) && TiersDeclared(t.outbox)
    ensures Extends(t, Handle(wf, t, call).t) && TiersDeclared(Handle(wf, t, call).t.outbox)
    ensures Extends(t, HandleCrashed(wf, t, call)) && TiersDeclared(HandleCrashed(wf, t, call).outbox)
  {
    hide First, Second, Commit, Lawful, TiersDeclared, Extends, Sound;
    FirstIsLawful(wf, t, call);
    var d := First(wf, t, call);
    NothingExtends(t);
    if d.Do? {
      CommitExtends(wf, t, d.tx);
      var r := Commit(t, d.tx);
      var d2 := Second(wf, t.status, r.t, call);
      if r.ok && d2.Do? {
        SecondIsLawful(wf, t.status, r.t, call);
        CommitExtends(wf, r.t, d2.tx);
        ExtendsTwice(t, r.t, Commit(r.t, d2.tx).t);
      }
    }
  }

  lemma {:induction false} NothingExtends(t: Tables)
    ensures Extends(t, t)
  {
  }

  /** A task message is about a row, and its topic is the row's name. */
  lemma {:induction false} TaskNames(t: Tables, n: nat)
    requires Sound(t) && n < |t.outbox| && t.outbox[n].tier != DLQ_TIER
    ensures t.outbox[n].task.activityId < |t.rows| && t.outbox[n].topic == t.rows[t.outbox[n].task.activityId].name
  {
    hide KeysFormed, AttemptsContiguous, TimesBounded;
    AmongTasks(t.outbox, n);
    var tasks := TaskMessages(t.outbox);
    var i :| 0 <= i < |tasks| && tasks[i] == t.outbox[n];
  }

  lemma {:induction false} AmongTasks(outbox: seq<OutboxMessage>, n: nat)
    requires n < |outbox| && outbox[n].tier != DLQ_TIER
    ensures outbox[n] in TaskMessages(outbox)
  {
    if n < |outbox| - 1 { AmongTasks(outbox[..|outbox| - 1], n); }
  }

  lemma {:induction false} StepExtends(wf: Workflow, w: Network, s: Step)
    requires Sound(w.t) && TiersDeclared(w.t.outbox) && Possible(wf, w, s)
    ensures var t' := TablesAfter(wf, w, s); Extends(w.t, t') && Sound(t') && TiersDeclared(t'.outbox)
  {
    hide Handle, HandleCrashed, Sound, TiersDeclared, Extends, Commit;
    NothingExtends(w.t);
    match s
    case CommitOther(tx) =>
      CommitExtends(wf, w.t, tx);
      CommitKeepsSound(wf, w.t, tx);
    case Retry(call) =>
      HandleExtends(wf, w.t, call);
      HandleKeepsSound(wf, w.t, call);
    case HandleResult(id, res) =>
      HandleExtends(wf, w.t, CallOfResult(id, res));
      HandleKeepsSound(wf, w.t, CallOfResult(id, res));
    case HandlerDies(id, res, _) =>
      HandleExtends(wf, w.t, CallOfResult(id, res));
      HandleKeepsSound(wf, w.t, CallOfResult(id, res));
    case Timeout(id) =>
      HandleExtends(wf, w.t, ReportFailure(id, false));
      HandleKeepsSound(wf, w.t, ReportFailure(id, false));
    case _ =>
  }

  lemma {:induction false} SwapIsKnown(wf: Workflow, w: Network, s: Step)
    requires Kept(w) && Possible(wf, w, s)
    ensures forall k | k in Swap(wf, w, s).1 :: k.id < |w.t.rows|
  {
    hide Sound, TiersDeclared, Handle, Lawful, GoodListing, Routed, ToActivity, ToEngine;
    match s
    case Report(id, res) => ToEngineAlways(w.registered, id, res);
    case Publish(n) =>
      RoutedByTier(w.registered, w.t.outbox[n]);
      if w.t.outbox[n].tier != DLQ_TIER { TaskNames(w.t, n); }
    case Expire(id) => ToActivityIf(w.registered, NameOf(w.t, id), id);
    case _ =>
  }

  lemma {:induction false} NextKept(wf: Workflow, w: Network, s: Step)
    requires Kept(w) && Possible(wf, w, s)
    ensures Kept(Next(wf, w, s))
  {
    hide Sound, TiersDeclared, TablesAfter, Swap, Lawful, GoodListing;
    StepExtends(wf, w, s);
    SwapIsKnown(wf, w, s);
  }

  /** Tables move on; what is on its way stays on its way, and new rows come with their messages. */
  lemma {:induction false} TablesMove(w: Network, t': Tables)
    requires Kept(w) && NothingLost(w) && Extends(w.t, t')
    ensures NothingLost(w.(t := t'))
  {
    hide Sound, TiersDeclared;
    var w' := w.(t := t');
    forall i | IsPending(t', i) ensures OnItsWay(w', i) {
      if IsPending(w.t, i) {
        assert OnItsWay(w, i);
        if n :| IsUnsent(w, i, n) { assert IsUnsent(w', i, n); }
      } else {
        var n :| |w.t.outbox| <= n < |t'.outbox| && t'.outbox[n].tier != DLQ_TIER && t'.outbox[n].task.activityId == i;
        assert IsUnsent(w', i, n);
      }
    }
  }

  /** Tokens make way for others; a pending row must not lose its own. */
  ghost predicate FairSwap(t: Tables, from: multiset<Token>, to: multiset<Token>) {
    forall k | k in from :: k.Reported? || InFlight(to, k.id) || !IsPending(t, k.id)
  }

  lemma {:induction false} TokensMove(w: Network, w': Network, from: multiset<Token>, to: multiset<Token>)
    requires NothingLost(w) && FairSwap(w.t, from, to)
    requires w'.t == w.t && w'.sent == w.sent && w'.tokens == w.tokens - from + to
    ensures NothingLost(w')
  {
    forall i | IsPending(w'.t, i) ensures OnItsWay(w', i) {
      assert OnItsWay(w, i);
      if n :| IsUnsent(w, i, n) {
        assert IsUnsent(w', i, n);
      } else {
        var k :| k in w.tokens && k.id == i && !k.Reported?;
        if k in from {
          var k' :| k' in to && k'.id == i && !k'.Reported?;
          assert k' in w'.tokens;
        } else {
          assert k in w'.tokens;
        }
      }
    }
  }

  lemma {:induction false} ResultIsSettled(wf: Workflow, t: Tables, id: nat, res: Outcome)
    requires Handle(wf, t, CallOfResult(id, res)).ok
    ensures !IsPending(Handle(wf, t, CallOfResult(id, res)).t, id)
  {
    hide Handle;
    HandleKeepsOthers(wf, t, CallOfResult(id, res));
  }

  lemma {:induction false} StepSwapsFairly(wf: Workflow, w: Network, s: Step)
    requires Possible(wf, w, s) && !s.Publish? && !s.Expire?
    ensures FairSwap(TablesAfter(wf, w, s), Swap(wf, w, s).0, Swap(wf, w, s).1)
  {
    hide Handle, HandleCrashed, Commit, Lawful, GoodListing, ToEngine;
    match s
    case Report(id, res) =>
      ToEngineAlways(w.registered, id, res);
      assert ResultQueued(id, res) in Swap(wf, w, s).1;
    case Take(id) => assert Taken(id) in Swap(wf, w, s).1;
    case Requeue(id) => assert Queued(id) in Swap(wf, w, s).1;
    case TakeResult(id, res) => assert Handling(id, res) in Swap(wf, w, s).1;
    case HandlerDies(id, res, _) => assert ResultQueued(id, res) in Swap(wf, w, s).1;
    case HandleResult(id, res) =>
      if Handle(wf, w.t, CallOfResult(id, res)).ok {
        ResultIsSettled(wf, w.t, id, res);
      } else {
        assert ResultQueued(id, res) in Swap(wf, w, s).1;
      }
    case _ =>
  }

  /******* What exactly is lost *******/

  /** Row `i` has something on its way besides message `n`. */
  ghost predicate Otherwise(w: Network, tokens: multiset<Token>, i: nat, n: int) {
    (exists m | m != n :: IsUnsent(w, i, m)) || InFlight(tokens, i)
  }

  /**
   * The step sends the task of the pending row `i`, or lets it leave its parking queue, while no worker has registered
   * its activity, and nothing else is on its way for the row.
   */
  ghost predicate LosesLast(w: Network, s: Step, i: nat) {
    && IsPending(w.t, i) && w.t.rows[i].name !in w.registered
    && match s
       case Publish(n) =>
         && n < |w.t.outbox| && w.t.outbox[n].tier == 0 && w.t.outbox[n].task.activityId == i
         && !Otherwise(w, w.tokens, i, n)
       case Expire(id) => id == i && !Otherwise(w, w.tokens - multiset{Parked(id)}, i, -1)
       case _ => false
  }

  ghost predicate Loses(w: Network, s: Step) {
    exists i :: LosesLast(w, s, i)
  }

  lemma {:induction false} OnItsWayWithout(w: Network, w': Network, tokens: multiset<Token>, more: multiset<Token>,
      i: nat, n: int)
    requires w'.t == w.t && (forall m | m != n :: m in w'.sent <==> m in w.sent) && (n >= 0 ==> n in w'.sent)
    requires w'.tokens == tokens + more
    ensures OnItsWay(w', i) <==> Otherwise(w, tokens, i, n) || InFlight(more, i)
  {
    hide InFlight;
    MoreInFlight(tokens, more, i);
    forall m: nat | m != n ensures IsUnsent(w', i, m) <==> IsUnsent(w, i, m) {
    }
  }

  lemma {:induction false} PublishExact(w: Network, w': Network, n: nat, i: nat)
    requires Kept(w) && n < |w.t.outbox| && IsPending(w.t, i) && OnItsWay(w, i)
    requires w' == w.(sent := w.sent + {n}, tokens := w.tokens + Routed(w.registered, w.t.outbox[n]))
    ensures OnItsWay(w', i) <==> !LosesLast(w, Publish(n), i)
  {
    hide Sound, Routed, TiersDeclared, InFlight;
    var m := w.t.outbox[n];
    RoutedByTier(w.registered, m);
    TierOf(w.t.outbox, n);
    if m.tier != DLQ_TIER { TaskNames(w.t, n); }
    OnItsWayWithout(w, w', w.tokens, Routed(w.registered, m), i, n);
    OneInFlight(Queued(m.task.activityId), i);
    OneInFlight(Parked(m.task.activityId), i);
  }

  lemma {:induction false} ExpireExact(w: Network, w': Network, id: nat, i: nat)
    requires Kept(w) && IsPending(w.t, i) && OnItsWay(w, i)
    requires w' == w.(tokens := w.tokens - multiset{Parked(id)} + ToActivity(w.registered, NameOf(w.t, id), id))
    ensures OnItsWay(w', i) <==> !LosesLast(w, Expire(id), i)
  {
    hide Sound, ToActivity, TiersDeclared;
    ToActivityIf(w.registered, NameOf(w.t, id), id);
    OnItsWayWithout(w, w', w.tokens - multiset{Parked(id)}, ToActivity(w.registered, NameOf(w.t, id), id), i, -1);
    OneInFlight(Queued(id), i);
    if i != id && InFlight(w.tokens, i) {
      var k :| k in w.tokens && k.id == i && !k.Reported?;
      assert k in w.tokens - multiset{Parked(id)};
    }
  }

  lemma {:induction false} TierOf(outbox: seq<OutboxMessage>, n: nat)
    requires TiersDeclared(outbox) && n < |outbox|
    ensures outbox[n].tier == DLQ_TIER || outbox[n].tier == 0 || outbox[n].tier in RETRY_TIERS
  {
  }

  lemma {:induction false} MoreInFlight(tokens: multiset<Token>, more: multiset<Token>, i: nat)
    ensures InFlight(tokens + more, i) <==> InFlight(tokens, i) || InFlight(more, i)
  {
    if k :| k in tokens + more && k.id == i && !k.Reported? {
      assert k in tokens || k in more;
    }
    if k :| k in tokens && k.id == i && !k.Reported? { assert k in tokens + more; }
    if k :| k in more && k.id == i && !k.Reported? { assert k in tokens + more; }
  }

  lemma {:induction false} OneInFlight(k: Token, i: nat)
    ensures InFlight(multiset{k}, i) <==> k.id == i && !k.Reported?
    ensures !InFlight(multiset{}, i)
  {
    assert k in multiset{k};
  }

  /** Other steps lose nothing. */
  lemma {:induction false} OthersLoseNothing(wf: Workflow, w: Network, s: Step)
    requires Kept(w) && NothingLost(w) && Possible(wf, w, s) && !s.Publish? && !s.Expire?
    ensures NothingLost(Next(wf, w, s)) && !Loses(w, s)
  {
    hide Sound, TiersDeclared, NothingLost, Extends, FairSwap, TablesAfter, Swap, Possible;
    StepExtends(wf, w, s);
    var t' := TablesAfter(wf, w, s);
    TablesMove(w, t');
    StepSwapsFairly(wf, w, s);
    TokensMove(w.(t := t'), Next(wf, w, s), Swap(wf, w, s).0, Swap(wf, w, s).1);
  }

  /** The exact condition for one step: nothing is lost if and only if it is not the last task of a pending row. */
  lemma {:induction false} NextExactly(wf: Workflow, w: Network, s: Step)
    requires Kept(w) && NothingLost(w) && Possible(wf, w, s)
    ensures NothingLost(Next(wf, w, s)) <==> !Loses(w, s)
  {
    hide Kept, OnItsWay, LosesLast, Routed, ToActivity;
    var w' := Next(wf, w, s);
    if s.Publish? || s.Expire? {
      forall i | IsPending(w.t, i) ensures OnItsWay(w', i) <==> !LosesLast(w, s, i) {
        assert OnItsWay(w, i);
        if s.Publish? { PublishExact(w, w', s.n, i); } else { ExpireExact(w, w', s.id, i); }
      }
      assert forall i | LosesLast(w, s, i) :: IsPending(w.t, i) by { LosersArePending(w, s); }
    } else {
      OthersLoseNothing(wf, w, s);
    }
  }

  lemma {:induction false} LosersArePending(w: Network, s: Step)
    ensures forall i | LosesLast(w, s, i) :: IsPending(w.t, i)
  {
  }

  lemma {:induction false} FreshLosesNothing(exec: string, wf: Workflow, registered: set<string>)
    ensures Kept(Fresh(exec, wf, registered)) && NothingLost(Fresh(exec, wf, registered))
  {
    hide Sound;
    CreateIsSound(exec, wf);
    var w := Fresh(exec, wf, registered);
    forall i | IsPending(w.t, i) ensures OnItsWay(w, i) {
      assert IsUnsent(w, i, 0);
    }
  }

  /** At every moment so far each pending row has had something on its way. */
  ghost predicate NeverLost(wf: Workflow, w: Network, steps: seq<Step>) {
    NothingLost(RunSteps(wf, w, steps)) && (steps != [] ==> NeverLost(wf, w, steps[..|steps| - 1]))
  }

  /** No step taken so far has lost the last task of a pending row. */
  ghost predicate NoneLoses(wf: Workflow, w: Network, steps: seq<Step>) {
    steps != [] ==>
      && NoneLoses(wf, w, steps[..|steps| - 1])
      && var w' := RunSteps(wf, w, steps[..|steps| - 1]);
         Possible(wf, w', steps[|steps| - 1]) ==> !Loses(w', steps[|steps| - 1])
  }

  lemma {:induction false} RunKept(wf: Workflow, w: Network, steps: seq<Step>)
    requires Kept(w)
    ensures Kept(RunSteps(wf, w, steps))
  {
    hide Kept, Possible, Next;
    if steps != [] {
      var init, s := steps[..|steps| - 1], steps[|steps| - 1];
      RunKept(wf, w, init);
      if Possible(wf, RunSteps(wf, w, init), s) { NextKept(wf, RunSteps(wf, w, init), s); }
    }
  }

  /**
   * No lost work: whatever fails, dies or repeats, and whatever other handlers do, every pending row always has a task
   * message waiting in the outbox, or a task or result in a queue or in someone's hands; if and only if no step
   * lets the last task of a pending row go to an activity that no worker has registered.
   */
  lemma {:induction false} NoWorkIsLost(wf: Workflow, exec: string, registered: set<string>, steps: seq<Step>)
    ensures NeverLost(wf, Fresh(exec, wf, registered), steps) <==> NoneLoses(wf, Fresh(exec, wf, registered), steps)
  {
    hide NothingLost, Possible, Next, Loses, Kept;
    var w := Fresh(exec, wf, registered);
    FreshLosesNothing(exec, wf, registered);
    if steps != [] {
      var init, s := steps[..|steps| - 1], steps[|steps| - 1];
      NoWorkIsLost(wf, exec, registered, init);
      RunKept(wf, w, init);
      var w' := RunSteps(wf, w, init);
      if NeverLost(wf, w, init) && Possible(wf, w', s) {
        assert NothingLost(w');
        NextExactly(wf, w', s);
      }
    }
  }

  /** Activities are registered when their tasks are published, and when these leave their parking queues. */
  ghost predicate RegisteredInTime(wf: Workflow, w: Network, steps: seq<Step>) {
    steps != [] ==>
      && RegisteredInTime(wf, w, steps[..|steps| - 1])
      && var w', s := RunSteps(wf, w, steps[..|steps| - 1]), steps[|steps| - 1];
         && (s.Publish? && s.n < |w'.t.outbox| ==> w'.t.outbox[s.n].topic in w'.registered)
         && (s.Expire? ==> NameOf(w'.t, s.id) in w'.registered)
  }

  /** In particular nothing is lost if activities are registered in time. */
  lemma {:induction false} RegisteredLosesNothing(wf: Workflow, exec: string, registered: set<string>, steps: seq<Step>)
    requires RegisteredInTime(wf, Fresh(exec, wf, registered), steps)
    ensures NeverLost(wf, Fresh(exec, wf, registered), steps)
  {
    hide NeverLost, Possible, Next, Kept, Fresh;
    FreshLosesNothing(exec, wf, registered);
    InTimeLosesNone(wf, Fresh(exec, wf, registered), steps);
    NoWorkIsLost(wf, exec, registered, steps);
  }

  lemma {:induction false} InTimeLosesNone(wf: Workflow, w: Network, steps: seq<Step>)
    requires Kept(w) && RegisteredInTime(wf, w, steps)
    ensures NoneLoses(wf, w, steps)
  {
    hide Possible, Next, Kept, Loses;
    if steps != [] {
      var init, s := steps[..|steps| - 1], steps[|steps| - 1];
      InTimeLosesNone(wf, w, init);
      RunKept(wf, w, init);
      InTimeStep(RunSteps(wf, w, init), s);
    }
  }

  lemma {:induction false} InTimeStep(w: Network, s: Step)
    requires Kept(w)
    requires s.Publish? && s.n < |w.t.outbox| ==> w.t.outbox[s.n].topic in w.registered
    requires s.Expire? ==> NameOf(w.t, s.id) in w.registered
    ensures !Loses(w, s)
  {
    hide Sound, TiersDeclared, Otherwise;
    if s.Publish? && s.n < |w.t.outbox| && w.t.outbox[s.n].tier != DLQ_TIER { TaskNames(w.t, s.n); }
  }

  lemma {:induction false} FirstTask(exec: string, wf: Workflow)
    requires wf != []
    ensures var t := Create(exec, wf);
            && |t.rows| == 1 && t.rows[0].status == RowPending && t.rows[0].name == wf[0].name
            && |t.outbox| == 1 && t.outbox[0].tier == 0 && t.outbox[0].topic == wf[0].name
            && t.outbox[0].task.activityId == 0
  {
  }

  lemma {:induction false} TwoSteps(wf: Workflow, w: Network, a: Step, b: Step)
    requires Possible(wf, w, a) && Possible(wf, Next(wf, w, a), b)
    ensures RunSteps(wf, w, [a, b]) == Next(wf, Next(wf, w, a), b)
  {
    hide Possible, Next;
    assert [a, b][..1] == [a] && [a][..0] == [];
    assert RunSteps(wf, w, [a]) == Next(wf, w, a);
  }

  /** A task for an activity that nobody has registered, published once and deleted. */
  lemma {:induction false} PublishedIntoNothing(wf: Workflow, w: Network)
    requires |w.t.outbox| == 1 && w.t.outbox[0].tier == 0 && w.t.outbox[0].topic !in w.registered
    requires w.sent == {} && w.deleted == {} && w.tokens == multiset{}
    ensures Possible(wf, w, Publish(0)) && Possible(wf, Next(wf, w, Publish(0)), Delete(0))
    ensures var w' := Next(wf, Next(wf, w, Publish(0)), Delete(0));
            w'.t == w.t && w'.deleted == {0} && forall i :: !OnItsWay(w', i)
  {
    hide Routed, Handle, HandleCrashed, Commit, Lawful;
    RoutedByTier(w.registered, w.t.outbox[0]);
  }

  /**
   * A run that loses: started before any worker has registered the first activity, the execution's task is published,
   * dropped, and deleted from the outbox. Its row is pending with nothing on its way; only the reaper is left.
   */
  lemma {:induction false} FirstTaskIsLost(wf: Workflow, exec: string, registered: set<string>)
    requires wf != [] && wf[0].name !in registered
    ensures var w := RunSteps(wf, Fresh(exec, wf, registered), [Publish(0), Delete(0)]);
            IsPending(w.t, 0) && !OnItsWay(w, 0) && w.deleted == {0} && Possible(wf, w, Timeout(0))
  {
    hide Create, Possible, Next, OnItsWay;
    FirstTask(exec, wf);
    var w := Fresh(exec, wf, registered);
    PublishedIntoNothing(wf, w);
    TwoSteps(wf, w, Publish(0), Delete(0));
    TimeoutIsPossible(wf, RunSteps(wf, w, [Publish(0), Delete(0)]), 0);
  }

  lemma {:induction false} TimeoutIsPossible(wf: Workflow, w: Network, i: nat)
    ensures IsPending(w.t, i) ==> Possible(wf, w, Timeout(i))
  {
  }
}
