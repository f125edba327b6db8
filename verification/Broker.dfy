/** The broker: exchanges, queues and bindings as the engine declares them, and where a publication ends up. */
module Broker {
  import opened Models
  import opened Keys
  import opened Backoff
  import opened Topics

  const WORKFLOW_EXCHANGE := "workflow.exchange"
  const RESULTS_EXCHANGE := "results.exchange"
  const DLQ_EXCHANGE := "dlq.exchange"
  const RETRY_EXCHANGE := "retry.exchange"
  const HEARTBEAT_EXCHANGE := "heartbeat.exchange"
  const EXCHANGES: set<string> :=
    {WORKFLOW_EXCHANGE, RESULTS_EXCHANGE, DLQ_EXCHANGE, RETRY_EXCHANGE, HEARTBEAT_EXCHANGE}

  const RESULTS_QUEUE := "activity.results.queue"
  const HEARTBEAT_QUEUE := "heartbeat.queue"

  /** Time to live in milliseconds, and the exchange that expired messages go to. */
  datatype QueueArgs = QueueArgs(ttl: Option<int>, deadLetterExchange: Option<string>)

  const PLAIN := QueueArgs(None, None)

  /** Topic exchanges match the key by its words; the headers exchange matches the `delay-tier` header. */
  datatype Binding = Binding(queue: string, exchange: string, key: string, tier: Option<int>)

  datatype Publication = Publication(exchange: string, key: string, tier: Option<int>, task: Task)

  /** A result as it is sent. */
  datatype SentResult = SentResult(exchange: string, key: string, res: ResultMessage)

  function ParkingQueue(tier: int): string
    requires tier >= 0
  {
    "retry." + Decimal(tier) + "s.queue"
  }

  function ActivityQueue(name: string): string {
    name + ".queue"
  }

  function DeadLetterQueue(name: string): string {
    "activity." + name + ".dlq"
  }

  predicate Matches(b: Binding, exchange: string, key: string, tier: Option<int>) {
    b.exchange == exchange && if exchange == RETRY_EXCHANGE then b.tier == tier else TopicMatches(b.key, key)
  }

  /** The queues that a publication reaches. */
  ghost function Routes(bindings: set<Binding>, exchange: string, key: string, tier: Option<int>): set<string> {
    set b | b in bindings && Matches(b, exchange, key, tier) :: b.queue
  }

  /******* What is declared *******/

  function ParkingBindings(tiers: seq<int>): set<Binding>
    requires forall i | 0 <= i < |tiers| :: tiers[i] >= 0
  {
    set i | 0 <= i < |tiers| :: Binding(ParkingQueue(tiers[i]), RETRY_EXCHANGE, "", Some(tiers[i]))
  }

  function ParkingQueues(tiers: seq<int>): map<string, QueueArgs>
    requires forall i | 0 <= i < |tiers| :: tiers[i] >= 0
  {
    if tiers == [] then map[]
    else
      var tier := tiers[|tiers| - 1];
      ParkingQueues(tiers[..|tiers| - 1])[ParkingQueue(tier) := QueueArgs(Some(tier * 1000), Some(WORKFLOW_EXCHANGE))]
  }

  function BaseBindings(): set<Binding> {
    ParkingBindings(RETRY_TIERS) + {Binding(RESULTS_QUEUE, RESULTS_EXCHANGE, "result", None),
                                    Binding(HEARTBEAT_QUEUE, HEARTBEAT_EXCHANGE, "heartbeat", None)}
  }

  /** Bindings of the registered activities. */
  ghost function ActivityBindings(names: set<string>): set<Binding> {
    (set n | n in names :: Binding(ActivityQueue(n), WORKFLOW_EXCHANGE, n, None)) +
    (set n | n in names :: Binding(DeadLetterQueue(n), DLQ_EXCHANGE, n, None))
  }

  /** Names whose queue would be one of the engine's own. */
  const RESERVED: set<string> :=
      {"activity.results", "heartbeat", "retry.1s", "retry.2s", "retry.4s", "retry.8s", "retry.16s"}

  lemma {:induction false} ParkingBindingsGrow(tiers: seq<int>, i: nat)
    requires i < |tiers| && forall k | 0 <= k < |tiers| :: tiers[k] >= 0
    ensures ParkingBindings(tiers[..i + 1]) ==
            ParkingBindings(tiers[..i]) + {Binding(ParkingQueue(tiers[i]), RETRY_EXCHANGE, "", Some(tiers[i]))}
    ensures ParkingQueues(tiers[..i + 1]) ==
            ParkingQueues(tiers[..i])[ParkingQueue(tiers[i]) :=
                QueueArgs(Some(tiers[i] * 1000), Some(WORKFLOW_EXCHANGE))]
  {
    hide ParkingQueue;
    assert tiers[..i + 1][..i] == tiers[..i];
    var b := Binding(ParkingQueue(tiers[i]), RETRY_EXCHANGE, "", Some(tiers[i]));
    assert b in ParkingBindings(tiers[..i + 1]) by { assert tiers[..i + 1][i] == tiers[i]; }
    forall x | x in ParkingBindings(tiers[..i]) ensures x in ParkingBindings(tiers[..i + 1]) {
      var k :| 0 <= k < i && x == Binding(ParkingQueue(tiers[..i][k]), RETRY_EXCHANGE, "", Some(tiers[..i][k]));
      assert tiers[..i + 1][k] == tiers[k];
    }
    forall x | x in ParkingBindings(tiers[..i + 1]) && x != b ensures x in ParkingBindings(tiers[..i]) {
      var k :| 0 <= k < i + 1 &&
          x == Binding(ParkingQueue(tiers[..i + 1][k]), RETRY_EXCHANGE, "", Some(tiers[..i + 1][k]));
      assert tiers[..i][k] == tiers[k];
    }
  }

  lemma {:induction false} ActivityBindingsGrow(names: set<string>, name: string)
    ensures ActivityBindings(names + {name}) ==
            ActivityBindings(names) + {Binding(ActivityQueue(name), WORKFLOW_EXCHANGE, name, None)}
                                    + {Binding(DeadLetterQueue(name), DLQ_EXCHANGE, name, None)}
  {
  }

  /** Declaring a plain queue is refused if there is one of that name with other arguments. */
  predicate Declarable(queues: map<string, QueueArgs>, queue: string) {
    queue !in queues || queues[queue] == PLAIN
  }

  lemma {:induction false} QueueKindsDiffer(name: string, name': string)
    ensures ActivityQueue(name) != DeadLetterQueue(name')
  {
    var q, d := ActivityQueue(name), DeadLetterQueue(name');
    assert q[|q| - 1] == 'e' && d[|d| - 1] == 'q';
  }

  class RabbitMQ {
    var exchanges: set<string>
    var queues: map<string, QueueArgs>
    var bindings: set<Binding>
    /** Everything published, in order. */
    ghost var log: seq<Publication>
    /** Results published, in order. */
    ghost var results: seq<SentResult>

    /** Declares the engine's topology on an empty broker. */
    constructor ()
      ensures exchanges == EXCHANGES
      ensures bindings == BaseBindings() && log == [] && results == []
      ensures queues == ParkingQueues(RETRY_TIERS)[RESULTS_QUEUE := PLAIN][HEARTBEAT_QUEUE := PLAIN]
    {
      exchanges, queues, bindings, log, results := {}, map[], {}, [], [];
      new;
      DeclareTopology();
    }

    method ExchangeDeclare(name: string)
      modifies this`exchanges
      ensures exchanges == old(exchanges) + {name}
    {
      exchanges := exchanges + {name};
    }

    /** Declaring a queue again is refused if its arguments differ. */
    method QueueDeclare(name: string, args: QueueArgs) returns (ok: bool)
      modifies this`queues
      ensures ok <==> name !in old(queues) || old(queues)[name] == args
      ensures queues == if ok then old(queues)[name := args] else old(queues)
    {
      ok := name !in queues || queues[name] == args;
      if ok {
        queues := queues[name := args];
      }
    }

    method QueueBind(queue: string, key: string, exchange: string, tier: Option<int>)
      modifies this`bindings
      ensures bindings == old(bindings) + {Binding(queue, exchange, key, tier)}
    {
      bindings := bindings + {Binding(queue, exchange, key, tier)};
    }

    method DeclareExchanges()
      requires exchanges == {}
      modifies this`exchanges
      ensures exchanges == EXCHANGES
    {
      ExchangeDeclare(WORKFLOW_EXCHANGE);
      ExchangeDeclare(RESULTS_EXCHANGE);
      ExchangeDeclare(DLQ_EXCHANGE);
      ExchangeDeclare(RETRY_EXCHANGE);
      ExchangeDeclare(HEARTBEAT_EXCHANGE);
    }

    method DeclareTopology()
      requires exchanges == {} && queues == map[] && bindings == {}
      modifies this`exchanges, this`queues, this`bindings
      ensures exchanges == EXCHANGES
      ensures bindings == BaseBindings()
      ensures queues == ParkingQueues(RETRY_TIERS)[RESULTS_QUEUE := PLAIN][HEARTBEAT_QUEUE := PLAIN]
    {
      hide ParkingQueue;
      DeclareExchanges();
      for i := 0 to |RETRY_TIERS|
        invariant exchanges == EXCHANGES
        invariant bindings == ParkingBindings(RETRY_TIERS[..i])
        invariant queues == ParkingQueues(RETRY_TIERS[..i])
      {
        var tier := RETRY_TIERS[i];
        ParkingBindingsGrow(RETRY_TIERS, i);
        ParkingQueueIsNew(i);
        var ok := QueueDeclare(ParkingQueue(tier), QueueArgs(Some(tier * 1000), Some(WORKFLOW_EXCHANGE)));
        QueueBind(ParkingQueue(tier), "", RETRY_EXCHANGE, Some(tier));
      }
      assert RETRY_TIERS[..|RETRY_TIERS|] == RETRY_TIERS;
      SystemQueuesAreNew();
      var results := QueueDeclare(RESULTS_QUEUE, PLAIN);
      QueueBind(RESULTS_QUEUE, "result", RESULTS_EXCHANGE, None);
      var heartbeats := QueueDeclare(HEARTBEAT_QUEUE, PLAIN);
      QueueBind(HEARTBEAT_QUEUE, "heartbeat", HEARTBEAT_EXCHANGE, None);
    }

    /** Declares an activity's queues. An error, as for a reserved name, ends it early. */
    method RegisterActivityQueue(activityName: string, ghost names: set<string>) returns (ok: bool)
      requires Declared(bindings, names)
      modifies this`queues, this`bindings
      ensures ok <==>
                && Declarable(old(queues), ActivityQueue(activityName))
                && Declarable(old(queues), DeadLetterQueue(activityName))
      ensures ok ==> Declared(bindings, names + {activityName})
      ensures !ok && !Declarable(old(queues), ActivityQueue(activityName)) ==> bindings == old(bindings)
      ensures !ok && Declarable(old(queues), ActivityQueue(activityName)) ==>
                bindings == old(bindings) +
                    {Binding(ActivityQueue(activityName), WORKFLOW_EXCHANGE, activityName, None)}
      ensures ok ==> queues == old(queues)[ActivityQueue(activityName) := PLAIN][DeadLetterQueue(activityName) := PLAIN]
      ensures old(queues).Keys <= queues.Keys && forall q | q in old(queues) :: queues[q] == old(queues[q])
    {
      hide BaseBindings, ActivityQueue, DeadLetterQueue;
      QueueKindsDiffer(activityName, activityName);
      ok := QueueDeclare(ActivityQueue(activityName), PLAIN);
      if !ok {
        return;
      }
      QueueBind(ActivityQueue(activityName), activityName, WORKFLOW_EXCHANGE, None);
      ok := QueueDeclare(DeadLetterQueue(activityName), PLAIN);
      if !ok {
        return;
      }
      QueueBind(DeadLetterQueue(activityName), activityName, DLQ_EXCHANGE, None);
      ActivityBindingsGrow(names, activityName);
    }

    /** Publishing may fail; what is published is in the log. */
    method Publish(p: Publication, fails: bool) returns (ok: bool)
      modifies this`log
      ensures ok == !fails && log == if ok then old(log) + [p] else old(log)
    {
      ok := !fails;
      if ok {
        log := log + [p];
      }
    }

    method PublishTask(activityName: string, task: Task, fails: bool) returns (ok: bool)
      modifies this`log
      ensures ok == !fails &&
                log == if ok then old(log) + [Publication(WORKFLOW_EXCHANGE, activityName, None, task)] else old(log)
    {
      ok := Publish(Publication(WORKFLOW_EXCHANGE, activityName, None, task), fails);
    }

    method PublishRetryTask(activityName: string, tier: int, task: Task, fails: bool) returns (ok: bool)
      modifies this`log
      ensures ok == !fails &&
                log == if ok then old(log) + [Publication(RETRY_EXCHANGE, activityName, Some(tier), task)] else old(log)
    {
      ok := Publish(Publication(RETRY_EXCHANGE, activityName, Some(tier), task), fails);
    }

    method PublishResult(res: ResultMessage, fails: bool) returns (ok: bool)
      modifies this`results
      ensures ok == !fails
      ensures results == if ok then old(results) + [SentResult(RESULTS_EXCHANGE, "result", res)] else old(results)
    {
      ok := !fails;
      if ok {
        results := results + [SentResult(RESULTS_EXCHANGE, "result", res)];
      }
    }

    method PublishDLQ(activityName: string, task: Task, fails: bool) returns (ok: bool)
      modifies this`log
      ensures ok == !fails &&
                log == if ok then old(log) + [Publication(DLQ_EXCHANGE, activityName, None, task)] else old(log)
    {
      ok := Publish(Publication(DLQ_EXCHANGE, activityName, None, task), fails);
    }
  }

  /** What the broker holds after the topology and the activities `names` were declared. */
  ghost predicate Declared(bindings: set<Binding>, names: set<string>) {
    bindings == BaseBindings() + ActivityBindings(names)
  }

  /******* Where publications go *******/

  lemma {:induction false} ActivityRoutes(bindings: set<Binding>, names: set<string>, name: string, tier: Option<int>)
    requires Declared(bindings, names)
    ensures Routes(bindings, WORKFLOW_EXCHANGE, name, tier) ==
            set n | n in names && TopicMatches(n, name) :: ActivityQueue(n)
    ensures Routes(bindings, DLQ_EXCHANGE, name, tier) ==
            set n | n in names && TopicMatches(n, name) :: DeadLetterQueue(n)
  {
    hide TopicMatches;
    forall n | n in names
      ensures Binding(ActivityQueue(n), WORKFLOW_EXCHANGE, n, None) in bindings
      ensures Binding(DeadLetterQueue(n), DLQ_EXCHANGE, n, None) in bindings
    {
    }
  }

  lemma {:induction false} QueuesTell(name: string, name': string)
    ensures ActivityQueue(name) == ActivityQueue(name') ==> name == name'
  {
    assert ActivityQueue(name)[..|ActivityQueue(name)| - 6] == name;
    assert ActivityQueue(name')[..|ActivityQueue(name')| - 6] == name';
  }

  /** A task reaches the queue of its own activity exactly when that activity is registered, whatever the names. */
  lemma {:induction false} TasksReachTheirQueue(bindings: set<Binding>, names: set<string>, name: string,
      tier: Option<int>)
    requires Declared(bindings, names)
    ensures ActivityQueue(name) in Routes(bindings, WORKFLOW_EXCHANGE, name, tier) <==> name in names
  {
    hide TopicMatches, ActivityQueue, Declared;
    ActivityRoutes(bindings, names, name, tier);
    MatchesItself(name);
    forall n | n in names && ActivityQueue(n) == ActivityQueue(name) ensures n == name {
      QueuesTell(n, name);
    }
  }

  /** No registered name has wildcard words that match another. */
  ghost predicate Apart(names: set<string>) {
    forall n, m | n in names && m in names && TopicMatches(n, m) :: n == m
  }

  /** The tasks of registered activities reach their own queues and no others if and only if the names are apart. */
  lemma {:induction false} TasksReachOneQueue(bindings: set<Binding>, names: set<string>)
    requires Declared(bindings, names)
    ensures Apart(names) <==>
            forall name | name in names :: Routes(bindings, WORKFLOW_EXCHANGE, name, None) == {ActivityQueue(name)}
  {
    hide TopicMatches, ActivityQueue, Declared;
    forall name | name in names
      ensures Routes(bindings, WORKFLOW_EXCHANGE, name, None) == {ActivityQueue(name)} <==>
              forall n | n in names && TopicMatches(n, name) :: n == name
    {
      ActivityRoutes(bindings, names, name, None);
      MatchesItself(name);
      forall n | n in names && ActivityQueue(n) == ActivityQueue(name) ensures n == name { QueuesTell(n, name); }
      if Routes(bindings, WORKFLOW_EXCHANGE, name, None) == {ActivityQueue(name)} {
        forall n | n in names && TopicMatches(n, name) ensures n == name {
          assert ActivityQueue(n) in Routes(bindings, WORKFLOW_EXCHANGE, name, None);
        }
      }
    }
  }

  /** Names without wildcard words are apart. With an activity called `#`, every other one's tasks go there too. */
  lemma {:induction false} PlainNamesAreApart(names: set<string>)
    ensures (forall n | n in names :: IsPlain(n)) ==> Apart(names)
    ensures "#" in names && Apart(names) ==> names == {"#"}
  {
    hide TopicMatches, IsPlain;
    forall n | n in names && IsPlain(n) ensures forall m :: TopicMatches(n, m) ==> m == n {
      MatchesItself(n);
    }
    forall m ensures TopicMatches("#", m) { AllMatchHash(m); }
  }

  lemma {:induction false} OwnBindings(bindings: set<Binding>, names: set<string>, b: Binding)
    requires Declared(bindings, names)
    ensures b.exchange == RESULTS_EXCHANGE ==>
              (b in bindings <==> b == Binding(RESULTS_QUEUE, RESULTS_EXCHANGE, "result", None))
    ensures b.exchange == HEARTBEAT_EXCHANGE ==>
              (b in bindings <==> b == Binding(HEARTBEAT_QUEUE, HEARTBEAT_EXCHANGE, "heartbeat", None))
  {
    hide ParkingQueue, ActivityQueue, DeadLetterQueue;
    ExchangesDiffer();
  }

  lemma {:induction false} ExchangesDiffer()
    ensures RESULTS_EXCHANGE != HEARTBEAT_EXCHANGE && RESULTS_EXCHANGE != RETRY_EXCHANGE
    ensures RESULTS_EXCHANGE != WORKFLOW_EXCHANGE && RESULTS_EXCHANGE != DLQ_EXCHANGE
    ensures HEARTBEAT_EXCHANGE != RETRY_EXCHANGE && HEARTBEAT_EXCHANGE != WORKFLOW_EXCHANGE
    ensures HEARTBEAT_EXCHANGE != DLQ_EXCHANGE
  {
    assert RESULTS_EXCHANGE[0] == 'r' && RESULTS_EXCHANGE[2] == 's' && RETRY_EXCHANGE[2] == 't';
    assert HEARTBEAT_EXCHANGE[0] == 'h' && WORKFLOW_EXCHANGE[0] == 'w' && DLQ_EXCHANGE[0] == 'd';
    assert RETRY_EXCHANGE[0] == 'r';
  }

  /** Results and heartbeats reach the engine's own queues, and no other, whatever activities are called. */
  lemma {:induction false} ResultsReachTheEngine(bindings: set<Binding>, names: set<string>)
    requires Declared(bindings, names)
    ensures Routes(bindings, RESULTS_EXCHANGE, "result", None) == {RESULTS_QUEUE}
    ensures Routes(bindings, HEARTBEAT_EXCHANGE, "heartbeat", None) == {HEARTBEAT_QUEUE}
  {
    hide TopicMatches, Declared;
    MatchesItself("result");
    MatchesItself("heartbeat");
    ExchangesDiffer();
    var results := Binding(RESULTS_QUEUE, RESULTS_EXCHANGE, "result", None);
    var heartbeats := Binding(HEARTBEAT_QUEUE, HEARTBEAT_EXCHANGE, "heartbeat", None);
    OwnBindings(bindings, names, results);
    OwnBindings(bindings, names, heartbeats);
    forall b | b in bindings
      ensures b.exchange == RESULTS_EXCHANGE ==> b == results
      ensures b.exchange == HEARTBEAT_EXCHANGE ==> b == heartbeats
    {
      OwnBindings(bindings, names, b);
    }
  }

  /** Bindings are of queues and exchanges that are declared. */
  lemma {:induction false} AllIsDeclared(names: set<string>, b: Binding)
    ensures b in BaseBindings() ==>
              b.queue in ParkingQueues(RETRY_TIERS)[RESULTS_QUEUE := PLAIN][HEARTBEAT_QUEUE := PLAIN]
    ensures b in BaseBindings() + ActivityBindings(names) ==> b.exchange in EXCHANGES
  {
    hide ParkingQueue, ParkingQueues, ActivityQueue, DeadLetterQueue;
    if b in ParkingBindings(RETRY_TIERS) {
      var i :| 0 <= i < |RETRY_TIERS| && b.queue == ParkingQueue(RETRY_TIERS[i]);
      ParkingArgs(RETRY_TIERS, i);
    }
  }

  /** A retry is parked in the queue of its tier and no other, if there is one for its tier; else it is lost. */
  lemma {:induction false} RetriesAreParked(bindings: set<Binding>, names: set<string>, name: string, tier: int)
    requires Declared(bindings, names)
    ensures Routes(bindings, RETRY_EXCHANGE, name, Some(tier)) ==
            if tier in RETRY_TIERS then {ParkingQueue(tier)} else {}
  {
  }

  lemma {:induction false} ParkingArgs(tiers: seq<int>, i: nat)
    requires i < |tiers| && forall k | 0 <= k < |tiers| :: tiers[k] >= 0
    requires forall k, m | 0 <= k < m < |tiers| :: tiers[k] != tiers[m]
    ensures ParkingQueue(tiers[i]) in ParkingQueues(tiers)
    ensures ParkingQueues(tiers)[ParkingQueue(tiers[i])] == QueueArgs(Some(tiers[i] * 1000), Some(WORKFLOW_EXCHANGE))
  {
    hide ParkingQueue;
    if i < |tiers| - 1 {
      ParkingArgs(tiers[..|tiers| - 1], i);
      assert tiers[..|tiers| - 1][i] == tiers[i];
      ParkingQueueNames(tiers[i], tiers[|tiers| - 1]);
    }
  }

  /**
   * The delay of every automatic retry that the column can store for attempts up to 64: the task for attempt
   * `n` is parked for min(16, 2^(n-2)) seconds, in that tier's queue alone, and from there reaches the queue of
   * its own activity, alone if no name has wildcard words that match another.
   */
  lemma {:induction false} BackoffIsCarriedOut(bindings: set<Binding>, names: set<string>, name: string, n: nat)
    requires Declared(bindings, names) && name in names && 2 <= n <= 64
    ensures var delay := if Pow2(n - 2) <= 16 then Pow2(n - 2) else 16;
            && Routes(bindings, RETRY_EXCHANGE, name, Some(Tier(n))) == {ParkingQueue(delay)}
            && ParkingQueue(delay) in ParkingQueues(RETRY_TIERS)
            && ParkingQueues(RETRY_TIERS)[ParkingQueue(delay)] == QueueArgs(Some(delay * 1000), Some(WORKFLOW_EXCHANGE))
    ensures ActivityQueue(name) in Routes(bindings, WORKFLOW_EXCHANGE, name, None)
    ensures Apart(names) ==> Routes(bindings, WORKFLOW_EXCHANGE, name, None) == {ActivityQueue(name)}
  {
    hide BaseBindings, ParkingQueue, Pow2, Tier, ParkingQueues, Declared, Apart;
    TierExact(n);
    RetriesAreParked(bindings, names, name, Tier(n));
    TasksReachTheirQueue(bindings, names, name, None);
    TasksReachOneQueue(bindings, names);
    var i :| 0 <= i < |RETRY_TIERS| && RETRY_TIERS[i] == Tier(n);
    ParkingArgs(RETRY_TIERS, i);
  }

  /** An activity shares a queue with the engine exactly when its name is one of seven. */
  lemma {:induction false} ReservedNames(name: string)
    ensures name in RESERVED <==>
              || ActivityQueue(name) in {RESULTS_QUEUE, HEARTBEAT_QUEUE}
              || exists i :: 0 <= i < |RETRY_TIERS| && ActivityQueue(name) == ParkingQueue(RETRY_TIERS[i])
  {
    OwnQueues();
    forall other: string ensures ActivityQueue(name) == ActivityQueue(other) ==> name == other {
      QueuesTell(name, other);
    }
    assert RETRY_TIERS[0] == 1 && RETRY_TIERS[1] == 2 && RETRY_TIERS[2] == 4 && RETRY_TIERS[3] == 8 &&
        RETRY_TIERS[4] == 16;
  }

  lemma {:induction false} OwnQueues()
    ensures RESULTS_QUEUE == ActivityQueue("activity.results") && HEARTBEAT_QUEUE == ActivityQueue("heartbeat")
    ensures ParkingQueue(1) == ActivityQueue("retry.1s") && ParkingQueue(2) == ActivityQueue("retry.2s")
    ensures ParkingQueue(4) == ActivityQueue("retry.4s") && ParkingQueue(8) == ActivityQueue("retry.8s")
    ensures ParkingQueue(16) == ActivityQueue("retry.16s")
  {
    assert Decimal(1) == "1" && Decimal(2) == "2" && Decimal(4) == "4" && Decimal(8) == "8";
    assert Decimal(16) == Decimal(1) + "6";
  }

  /** Names of parking queues are told apart by the digits between `retry.` and `s.queue`. */
  lemma {:induction false} ParkingQueueNames(a: nat, b: nat)
    ensures ParkingQueue(a) == ParkingQueue(b) ==> a == b
  {
    DecimalRoundTrip(a);
    DecimalRoundTrip(b);
    var p, q := ParkingQueue(a), ParkingQueue(b);
    if p == q {
      assert p[6..|p| - 7] == Decimal(a);
      assert q[6..|q| - 7] == Decimal(b);
    }
  }

  lemma {:induction false} InParkingQueues(tiers: seq<int>, q: string)
    requires forall i | 0 <= i < |tiers| :: tiers[i] >= 0
    requires q in ParkingQueues(tiers)
    ensures exists i :: 0 <= i < |tiers| && q == ParkingQueue(tiers[i])
  {
    hide ParkingQueue;
    if q != ParkingQueue(tiers[|tiers| - 1]) {
      InParkingQueues(tiers[..|tiers| - 1], q);
      var i :| 0 <= i < |tiers| - 1 && q == ParkingQueue(tiers[..|tiers| - 1][i]);
      assert q == ParkingQueue(tiers[i]);
    }
  }

  lemma {:induction false} ParkingQueueIsNew(i: nat)
    requires i < |RETRY_TIERS|
    ensures ParkingQueue(RETRY_TIERS[i]) !in ParkingQueues(RETRY_TIERS[..i])
  {
    hide ParkingQueue;
    if ParkingQueue(RETRY_TIERS[i]) in ParkingQueues(RETRY_TIERS[..i]) {
      InParkingQueues(RETRY_TIERS[..i], ParkingQueue(RETRY_TIERS[i]));
      var k :| 0 <= k < i && ParkingQueue(RETRY_TIERS[i]) == ParkingQueue(RETRY_TIERS[..i][k]);
      ParkingQueueNames(RETRY_TIERS[i], RETRY_TIERS[k]);
    }
  }

  lemma {:induction false} SystemQueuesAreNew()
    ensures RESULTS_QUEUE !in ParkingQueues(RETRY_TIERS) && HEARTBEAT_QUEUE !in ParkingQueues(RETRY_TIERS)
    ensures RESULTS_QUEUE != HEARTBEAT_QUEUE
  {
    forall i | 0 <= i < |RETRY_TIERS| ensures ParkingQueue(RETRY_TIERS[i])[0] == 'r' {
    }
    if RESULTS_QUEUE in ParkingQueues(RETRY_TIERS) { InParkingQueues(RETRY_TIERS, RESULTS_QUEUE); }
    if HEARTBEAT_QUEUE in ParkingQueues(RETRY_TIERS) { InParkingQueues(RETRY_TIERS, HEARTBEAT_QUEUE); }
    assert RESULTS_QUEUE[0] == 'a' && HEARTBEAT_QUEUE[0] == 'h';
  }
}
