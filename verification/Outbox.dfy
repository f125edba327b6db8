/** The outbox publisher: publish, then delete, message by message, whatever fails. */
module Outbox {
  import opened Models
  import opened Repository
  import opened Broker
  import opened Arithmetic

  /**
   * What happens to a message in a pass. A payload that does not parse is skipped; a failed delete leaves a published
   * message behind.
   */
  datatype Fate = Unparsed | PublishFails | DeleteFails | Clean

  /** The message does not reach the broker in this pass. */
  predicate StaysBack(fate: Fate) {
    fate == Unparsed || fate == PublishFails
  }

  /** By its tier a message goes to the dead-letter exchange, to its activity, or to be parked. */
  function PublicationOf(m: OutboxMessage): Publication {
    if m.tier == DLQ_TIER then Publication(DLQ_EXCHANGE, m.topic, None, m.task)
    else if m.tier == 0 then Publication(WORKFLOW_EXCHANGE, m.topic, None, m.task)
    else Publication(RETRY_EXCHANGE, m.topic, Some(m.tier), m.task)
  }

  /** The first `k` messages without those published and deleted, then the rest. */
  function Left(outbox: seq<OutboxMessage>, fates: nat -> Fate, k: nat): (left: seq<OutboxMessage>)
    requires k <= |outbox|
    ensures forall m :: m in left ==> m in outbox
  {
    Stuck(outbox, fates, k) + outbox[k..]
  }

  /** Those of the first `k` messages that a pass does not get rid of. */
  function Stuck(outbox: seq<OutboxMessage>, fates: nat -> Fate, k: nat): (stuck: seq<OutboxMessage>)
    requires k <= |outbox|
    ensures |stuck| <= k && forall m :: m in stuck ==> m in outbox[..k]
  {
    if k == 0 then []
    else
      var rest := Stuck(outbox, fates, k - 1);
      assert outbox[..k] == outbox[..k - 1] + [outbox[k - 1]];
      if fates(k - 1) == Clean then rest else rest + [outbox[k - 1]]
  }

  /** The messages that a pass over the first `k` publishes, in order. */
  function Sent(outbox: seq<OutboxMessage>, fates: nat -> Fate, k: nat): seq<OutboxMessage>
    requires k <= |outbox|
  {
    if k == 0 then [] else Sent(outbox, fates, k - 1) + if StaysBack(fates(k - 1)) then [] else [outbox[k - 1]]
  }

  function PublicationsOf(messages: seq<OutboxMessage>): (ps: seq<Publication>)
    ensures |ps| == |messages| && forall i | 0 <= i < |ps| :: ps[i] == PublicationOf(messages[i])
  {
    if messages == [] then []
    else PublicationsOf(messages[..|messages| - 1]) + [PublicationOf(messages[|messages| - 1])]
  }

  /** What it publishes. */
  function Published(outbox: seq<OutboxMessage>, fates: nat -> Fate, k: nat): seq<Publication>
    requires k <= |outbox|
  {
    PublicationsOf(Sent(outbox, fates, k))
  }

  const BATCH: nat := 100

  function Batch(outbox: seq<OutboxMessage>): (k: nat)
    ensures k <= |outbox|
  {
    if |outbox| < BATCH then |outbox| else BATCH
  }

  lemma {:induction false} RemoveAppend(a: seq<OutboxMessage>, b: seq<OutboxMessage>, m: OutboxMessage)
    ensures Remove(a + b, m) == Remove(a, m) + Remove(b, m)
  {
    if b == [] {
      assert a + b == a;
    } else {
      var init := b[..|b| - 1];
      RemoveAppend(a, init, m);
      assert (a + b)[..|a + b| - 1] == a + init;
    }
  }

  lemma {:induction false} RemoveMiddle(a: seq<OutboxMessage>, m: OutboxMessage, b: seq<OutboxMessage>)
    requires m !in a && m !in b
    ensures Remove(a + ([m] + b), m) == a + b
  {
    RemoveAppend(a, [m] + b, m);
    RemoveAppend([m], b, m);
    assert Remove([m], m) == [];
  }

  lemma {:induction false} NotElsewhere(outbox: seq<OutboxMessage>, i: nat)
    requires Distinct(outbox) && i < |outbox|
    ensures outbox[i] !in outbox[..i] && outbox[i] !in outbox[i + 1..]
  {
  }

  /** Handling message `i` after the first `i`. */
  lemma {:induction false} PassStep(outbox: seq<OutboxMessage>, fates: nat -> Fate, i: nat)
    requires Distinct(outbox) && i < |outbox|
    ensures Left(outbox, fates, i + 1) ==
            if fates(i) == Clean then Remove(Left(outbox, fates, i), outbox[i]) else Left(outbox, fates, i)
    ensures Published(outbox, fates, i + 1) ==
            Published(outbox, fates, i) + if StaysBack(fates(i)) then [] else [PublicationOf(outbox[i])]
  {
    hide Remove, Distinct;
    var m, stuck := outbox[i], Stuck(outbox, fates, i);
    assert outbox[i..] == [m] + outbox[i + 1..];
    NotElsewhere(outbox, i);
    RemoveMiddle(stuck, m, outbox[i + 1..]);
  }

  lemma {:induction false} NothingYet(outbox: seq<OutboxMessage>, fates: nat -> Fate)
    ensures Left(outbox, fates, 0) == outbox && Published(outbox, fates, 0) == []
  {
  }

  class OutboxPublisher {
    const repo: ExecutionRepo
    const mq: RabbitMQ

    constructor (repo: ExecutionRepo, mq: RabbitMQ)
      ensures this.repo == repo && this.mq == mq
    {
      this.repo, this.mq := repo, mq;
    }

    /** Publishes by tier. */
    method Dispatch(msg: OutboxMessage, fails: bool) returns (ok: bool)
      modifies mq`log
      ensures ok == !fails && mq.log == old(mq.log) + if ok then [PublicationOf(msg)] else []
    {
      if msg.tier == -1 {
        ok := mq.PublishDLQ(msg.topic, msg.task, fails);
      } else if msg.tier == 0 {
        ok := mq.PublishTask(msg.topic, msg.task, fails);
      } else {
        ok := mq.PublishRetryTask(msg.topic, msg.tier, msg.task, fails);
      }
    }

    /** One pass. `fates` says which messages do not parse, and which publications and deletions fail. */
    method ProcessOutbox(readFails: bool, fates: nat -> Fate)
      requires repo.Valid()
      modifies repo`outbox, mq`log
      ensures repo.Valid() && repo.View() == old(repo.View())
      ensures readFails ==> repo.outbox == old(repo.outbox) && mq.log == old(mq.log)
      ensures !readFails ==>
                var outbox := old(repo.outbox);
                && repo.outbox == Left(outbox, fates, Batch(outbox))
                && mq.log == old(mq.log) + Published(outbox, fates, Batch(outbox))
    {
      hide ExecutionRepo.Valid, ExecutionRepo.View, Distinct, Left, Published, Remove, PublicationOf;
      if readFails {
        return;
      }
      ghost var outbox := repo.outbox;
      repo.OutboxIsDistinct();
      NothingYet(outbox, fates);
      var msgs := repo.GetPendingOutboxMessages(BATCH);
      for i := 0 to |msgs|
        invariant repo.Valid() && repo.View() == old(repo.View())
        invariant repo.outbox == Left(outbox, fates, i)
        invariant mq.log == old(mq.log) + Published(outbox, fates, i)
      {
        var msg := msgs[i];
        PassStep(outbox, fates, i);
        if fates(i) == Unparsed {
          continue;
        }
        var published := Dispatch(msg, fates(i) == PublishFails);
        if !published {
          continue;
        }
        if fates(i) == Clean {
          repo.DeleteOutboxMessage(msg);
        }
      }
    }
  }

  /******* One pass, message by message *******/

  /** How often a message stands in a list. */
  function Times(s: seq<OutboxMessage>, m: OutboxMessage): nat {
    if s == [] then 0 else Times(s[..|s| - 1], m) + if s[|s| - 1] == m then 1 else 0
  }

  lemma {:induction false} TimesAppend(s: seq<OutboxMessage>, x: OutboxMessage, m: OutboxMessage)
    ensures Times(s + [x], m) == Times(s, m) + if x == m then 1 else 0
  {
  }

  lemma {:induction false} TimesConcat(a: seq<OutboxMessage>, b: seq<OutboxMessage>, m: OutboxMessage)
    ensures Times(a + b, m) == Times(a, m) + Times(b, m)
  {
    if b == [] {
      assert a + b == a;
    } else {
      assert (a + b)[..|a + b| - 1] == a + b[..|b| - 1];
      TimesConcat(a, b[..|b| - 1], m);
    }
  }

  lemma {:induction false} OthersDiffer(outbox: seq<OutboxMessage>, i: nat, j: nat)
    requires Distinct(outbox) && i < |outbox| && j < |outbox|
    ensures outbox[i] == outbox[j] <==> i == j
  {
  }

  lemma {:induction false} SentOnce(outbox: seq<OutboxMessage>, fates: nat -> Fate, k: nat, i: nat)
    requires Distinct(outbox) && k <= |outbox| && i < |outbox|
    ensures Times(Sent(outbox, fates, k), outbox[i]) == if i < k && !StaysBack(fates(i)) then 1 else 0
    ensures Times(Stuck(outbox, fates, k), outbox[i]) == if i < k && fates(i) != Clean then 1 else 0
  {
    hide Distinct, StaysBack, Times;
    if k == 0 {
      NoTimes(outbox[i]);
    } else {
      SentOnce(outbox, fates, k - 1, i);
      OthersDiffer(outbox, k - 1, i);
      TimesAppend(Sent(outbox, fates, k - 1), outbox[k - 1], outbox[i]);
      TimesAppend(Stuck(outbox, fates, k - 1), outbox[k - 1], outbox[i]);
      assert Sent(outbox, fates, k - 1) + [] == Sent(outbox, fates, k - 1);
    }
  }

  lemma {:induction false} NoTimes(m: OutboxMessage)
    ensures Times([], m) == 0
  {
  }

  lemma {:induction false} OnceEach(outbox: seq<OutboxMessage>, k: nat, i: nat)
    requires Distinct(outbox) && k <= |outbox| && i < |outbox|
    ensures Times(outbox[..k], outbox[i]) == if i < k then 1 else 0
  {
    if k > 0 {
      assert outbox[..k][..k - 1] == outbox[..k - 1];
      OthersDiffer(outbox, k - 1, i);
      OnceEach(outbox, k - 1, i);
    }
  }

  /**
   * What a pass does to each message of the outbox: one of the hundred oldest that parses and can be published is
   * published exactly once, no other is; and it leaves the outbox exactly if it is published and then deleted.
   */
  lemma {:induction false} PassExactly(outbox: seq<OutboxMessage>, fates: nat -> Fate, i: nat)
    requires Distinct(outbox) && i < |outbox|
    ensures Times(Sent(outbox, fates, Batch(outbox)), outbox[i]) ==
              if i < 100 && (fates(i) == DeleteFails || fates(i) == Clean) then 1 else 0
    ensures Times(Left(outbox, fates, Batch(outbox)), outbox[i]) == if i < 100 && fates(i) == Clean then 0 else 1
  {
    hide Distinct, Times, Sent, Stuck;
    var k := Batch(outbox);
    SentOnce(outbox, fates, k, i);
    TimesConcat(Stuck(outbox, fates, k), outbox[k..], outbox[i]);
    TimesConcat(outbox[..k], outbox[k..], outbox[i]);
    assert outbox[..k] + outbox[k..] == outbox == outbox[..|outbox|];
    OnceEach(outbox, k, i);
    OnceEach(outbox, |outbox|, i);
  }

  /** Messages are published in their order in the outbox. */
  lemma {:induction false} PassKeepsOrder(outbox: seq<OutboxMessage>, fates: nat -> Fate, k: nat, i: nat, j: nat)
    returns (p: nat, q: nat)
    requires i < j < k <= |outbox| && !StaysBack(fates(i)) && !StaysBack(fates(j))
    ensures var sent := Sent(outbox, fates, k); p < q < |sent| && sent[p] == outbox[i] && sent[q] == outbox[j]
  {
    if j < k - 1 {
      p, q := PassKeepsOrder(outbox, fates, k - 1, i, j);
    } else {
      p := SentAt(outbox, fates, k - 1, i);
      q := |Sent(outbox, fates, k - 1)|;
    }
  }

  lemma {:induction false} SentAt(outbox: seq<OutboxMessage>, fates: nat -> Fate, k: nat, i: nat) returns (p: nat)
    requires i < k <= |outbox| && !StaysBack(fates(i))
    ensures p < |Sent(outbox, fates, k)| && Sent(outbox, fates, k)[p] == outbox[i]
  {
    if i < k - 1 { p := SentAt(outbox, fates, k - 1, i); } else { p := |Sent(outbox, fates, k - 1)|; }
  }

  /******* Over many passes *******/

  /** Transactions write messages; passes publish and delete. */
  datatype Step = Written(msgs: seq<OutboxMessage>) | Pass(fates: nat -> Fate)

  /** `log` holds the messages published, each as often as it was. */
  datatype State = State(outbox: seq<OutboxMessage>, log: seq<OutboxMessage>, written: seq<OutboxMessage>)

  function Next(s: State, step: Step): State {
    match step
    case Written(msgs) => s.(outbox := s.outbox + msgs, written := s.written + msgs)
    case Pass(fates) =>
      var k := Batch(s.outbox);
      s.(outbox := Left(s.outbox, fates, k), log := s.log + Sent(s.outbox, fates, k))
  }

  function RunSteps(s: State, steps: seq<Step>): State {
    if steps == [] then s else Next(RunSteps(s, steps[..|steps| - 1]), steps[|steps| - 1])
  }

  lemma {:induction false} GoneIsSent(outbox: seq<OutboxMessage>, fates: nat -> Fate, k: nat, m: OutboxMessage)
    requires k <= |outbox| && m in outbox[..k]
    ensures m in Stuck(outbox, fates, k) || m in Sent(outbox, fates, k)
  {
    assert outbox[..k] == outbox[..k - 1] + [outbox[k - 1]];
    if m in outbox[..k - 1] { GoneIsSent(outbox, fates, k - 1, m); }
  }

  lemma {:induction false} SentIsFromOutbox(outbox: seq<OutboxMessage>, fates: nat -> Fate, k: nat)
    requires k <= |outbox|
    ensures forall m | m in Sent(outbox, fates, k) :: m in outbox[..k]
  {
    if k > 0 {
      SentIsFromOutbox(outbox, fates, k - 1);
      assert outbox[..k] == outbox[..k - 1] + [outbox[k - 1]];
    }
  }

  /** Each message written is in the outbox or has been published; and both hold nothing else. */
  ghost predicate Conserved(s: State) {
    && (forall m :: m in s.written <==> m in s.outbox || m in s.log)
  }

  lemma {:induction false} PassConserves(s: State, fates: nat -> Fate)
    requires Conserved(s)
    ensures Conserved(Next(s, Pass(fates)))
  {
    var k, s' := Batch(s.outbox), Next(s, Pass(fates));
    assert s.outbox == s.outbox[..k] + s.outbox[k..];
    SentIsFromOutbox(s.outbox, fates, k);
    forall m ensures m in s'.written <==> m in s'.outbox || m in s'.log {
      if m in s.outbox[..k] { GoneIsSent(s.outbox, fates, k, m); }
    }
  }

  /**
   * Conservation: whatever does not parse or fails, exactly the messages written, told apart by their numbers, are in
   * the outbox or have been published.
   */
  lemma {:induction false} NothingIsLost(steps: seq<Step>)
    ensures Conserved(RunSteps(State([], [], []), steps))
  {
    if steps != [] {
      NothingIsLost(steps[..|steps| - 1]);
      var s, step := RunSteps(State([], [], []), steps[..|steps| - 1]), steps[|steps| - 1];
      match step
      case Pass(fates) => PassConserves(s, fates);
      case Written(msgs) =>
    }
  }

  /******* Draining *******/

  function AllClean(): nat -> Fate {
    i => Clean
  }

  function PassTimes(outbox: seq<OutboxMessage>, n: nat): seq<OutboxMessage> {
    if n == 0 then outbox
    else
      var rest := PassTimes(outbox, n - 1);
      Left(rest, AllClean(), Batch(rest))
  }

  lemma {:induction false} CleanLeavesNone(outbox: seq<OutboxMessage>, k: nat)
    requires k <= |outbox|
    ensures Stuck(outbox, AllClean(), k) == []
  {
    if k > 0 { CleanLeavesNone(outbox, k - 1); }
  }

  lemma {:induction false} CleanPassesDrop(outbox: seq<OutboxMessage>, n: nat)
    ensures PassTimes(outbox, n) == if n * BATCH < |outbox| then outbox[n * BATCH..] else []
  {
    if n > 0 {
      CleanPassesDrop(outbox, n - 1);
      var rest := PassTimes(outbox, n - 1);
      CleanLeavesNone(rest, Batch(rest));
      assert n * BATCH == (n - 1) * BATCH + BATCH;
      if n * BATCH < |outbox| {
        assert outbox[(n - 1) * BATCH..][BATCH..] == outbox[n * BATCH..];
      }
    }
  }

  /**
   * A hundred messages to a pass: an outbox is empty after `n` clean passes exactly when `n` is at least the ceiling.
   */
  lemma {:induction false} DrainsInTime(outbox: seq<OutboxMessage>, n: nat)
    ensures PassTimes(outbox, n) == [] <==> (|outbox| + 99) / 100 <= n
  {
    CleanPassesDrop(outbox, n);
  }

  /** How many messages satisfy `p`. */
  function Count(s: seq<OutboxMessage>, p: OutboxMessage -> bool): (n: nat)
    ensures n <= |s|
  {
    if s == [] then 0 else Count(s[..|s| - 1], p) + if p(s[|s| - 1]) then 1 else 0
  }

  lemma {:induction false} CountSplits(a: seq<OutboxMessage>, b: seq<OutboxMessage>, p: OutboxMessage -> bool)
    ensures Count(a + b, p) == Count(a, p) + Count(b, p)
  {
    if b == [] {
      assert a + b == a;
    } else {
      CountSplits(a, b[..|b| - 1], p);
      assert (a + b)[..|a + b| - 1] == a + b[..|b| - 1];
    }
  }

  lemma {:induction false} CountComplement(s: seq<OutboxMessage>, p: OutboxMessage -> bool)
    ensures Count(s, p) + Count(s, m => !p(m)) == |s|
  {
    if s != [] { CountComplement(s[..|s| - 1], p); }
  }

  /** In this pass every message is published and deleted, except perhaps those in trouble. */
  ghost predicate FairPass(outbox: seq<OutboxMessage>, trouble: OutboxMessage -> bool, fates: nat -> Fate) {
    forall i | 0 <= i < Batch(outbox) && !trouble(outbox[i]) :: fates(i) == Clean
  }

  lemma {:induction false} CountOneMore(s: seq<OutboxMessage>, m: OutboxMessage, p: OutboxMessage -> bool)
    ensures Count(s + [m], p) == Count(s, p) + if p(m) then 1 else 0
  {
  }

  lemma {:induction false} CountNothing(p: OutboxMessage -> bool)
    ensures Count([], p) == 0
  {
  }

  lemma {:induction false} StuckInTrouble(outbox: seq<OutboxMessage>, trouble: OutboxMessage -> bool,
      fates: nat -> Fate, k: nat)
    requires k <= Batch(outbox) && FairPass(outbox, trouble, fates)
    ensures Count(Stuck(outbox, fates, k), m => !trouble(m)) == 0
    ensures Count(Stuck(outbox, fates, k), trouble) <= Count(outbox[..k], trouble)
  {
    hide Count;
    if k > 0 {
      StuckInTrouble(outbox, trouble, fates, k - 1);
      var rest, m := Stuck(outbox, fates, k - 1), outbox[k - 1];
      assert outbox[..k] == outbox[..k - 1] + [m];
      assert Stuck(outbox, fates, k) == if fates(k - 1) == Clean then rest else rest + [m];
      CountOneMore(outbox[..k - 1], m, trouble);
      CountOneMore(rest, m, trouble);
      CountOneMore(rest, m, m => !trouble(m));
    } else {
      CountNothing(trouble);
      CountNothing(m => !trouble(m));
    }
  }

  /** With fewer than 100 messages in trouble, every pass gets rid of some of the others, or of all of them. */
  lemma {:induction false} FairPassProgresses(outbox: seq<OutboxMessage>, trouble: OutboxMessage -> bool,
      fates: nat -> Fate)
    requires FairPass(outbox, trouble, fates)
    ensures var left, healthy := Left(outbox, fates, Batch(outbox)), (m: OutboxMessage) => !trouble(m);
            && Count(left, trouble) <= Count(outbox, trouble)
            && (Count(left, healthy) == 0 ||
                Count(left, healthy) + BATCH <= Count(outbox, healthy) + Count(outbox, trouble))
  {
    hide Count, FairPass;
    var k, healthy := Batch(outbox), (m: OutboxMessage) => !trouble(m);
    var first, rest := outbox[..k], outbox[k..];
    assert outbox == first + rest;
    StuckInTrouble(outbox, trouble, fates, k);
    CountSplits(first, rest, trouble);
    CountSplits(first, rest, healthy);
    CountSplits(Stuck(outbox, fates, k), rest, trouble);
    CountSplits(Stuck(outbox, fates, k), rest, healthy);
    CountComplement(first, trouble);
    if k < BATCH {
      assert rest == [];
      CountNothing(trouble);
      CountNothing(healthy);
    }
  }

  /** The outbox after fair passes. */
  ghost function FairPasses(outbox: seq<OutboxMessage>, passes: seq<nat -> Fate>): seq<OutboxMessage> {
    if passes == [] then outbox
    else
      var rest := FairPasses(outbox, passes[..|passes| - 1]);
      Left(rest, passes[|passes| - 1], Batch(rest))
  }

  ghost predicate AllFair(outbox: seq<OutboxMessage>, trouble: OutboxMessage -> bool, passes: seq<nat -> Fate>) {
    passes != [] ==>
      && AllFair(outbox, trouble, passes[..|passes| - 1])
      && FairPass(FairPasses(outbox, passes[..|passes| - 1]), trouble, passes[|passes| - 1])
  }

  /**
   * Liveness under lasting failures: while `f` < 100 messages are in trouble, however they fail and however
   * long, `n` passes leave none of the others once n * (100 - f) reaches their number.
   */
  lemma {:induction false} OthersDrain(outbox: seq<OutboxMessage>, trouble: OutboxMessage -> bool,
      passes: seq<nat -> Fate>)
    requires AllFair(outbox, trouble, passes)
    ensures var left, healthy := FairPasses(outbox, passes), (m: OutboxMessage) => !trouble(m);
            && Count(left, trouble) <= Count(outbox, trouble)
            && (Count(left, healthy) == 0 ||
                Count(left, healthy) + |passes| * (BATCH - Count(outbox, trouble)) <= Count(outbox, healthy))
  {
    hide Count, Left, Batch, FairPass;
    if passes != [] {
      var init := passes[..|passes| - 1];
      OthersDrain(outbox, trouble, init);
      FairPassProgresses(FairPasses(outbox, init), trouble, passes[|passes| - 1]);
      TimesOneMore(|init|, BATCH - Count(outbox, trouble));
    }
  }

  /** Everything that the steps write. */
  function AllWritten(steps: seq<Step>): seq<OutboxMessage> {
    if steps == [] then []
    else
      AllWritten(steps[..|steps| - 1]) + match steps[|steps| - 1] case Written(msgs) => msgs case Pass(_) => []
  }

  /** In every pass the first hundred messages stay back. */
  ghost predicate HundredStayBack(steps: seq<Step>) {
    forall i | 0 <= i < |steps| && steps[i].Pass? :: forall k | 0 <= k < BATCH :: StaysBack(steps[i].fates(k))
  }

  /** While the hundred oldest messages cannot be published, nothing is, however much is written behind them. */
  lemma {:induction false} HundredBlockTheRest(s: State, steps: seq<Step>)
    requires |s.outbox| >= BATCH && HundredStayBack(steps)
    ensures var more := AllWritten(steps);
            RunSteps(s, steps) == State(s.outbox + more, s.log, s.written + more)
  {
    if steps == [] {
      assert s.outbox + [] == s.outbox && s.written + [] == s.written;
    } else {
      var init, step := steps[..|steps| - 1], steps[|steps| - 1];
      HundredBlockTheRest(s, init);
      var s', more := RunSteps(s, init), AllWritten(init);
      match step
      case Pass(fates) =>
        NothingMoves(s'.outbox, fates, BATCH);
        assert s'.outbox[..BATCH] + s'.outbox[BATCH..] == s'.outbox;
        assert s'.log + [] == s'.log && more + [] == more;
      case Written(msgs) =>
        assert s.outbox + more + msgs == s.outbox + (more + msgs);
        assert s.written + more + msgs == s.written + (more + msgs);
    }
  }

  lemma {:induction false} NothingMoves(outbox: seq<OutboxMessage>, fates: nat -> Fate, k: nat)
    requires k <= |outbox| && forall i | 0 <= i < k :: StaysBack(fates(i))
    ensures Stuck(outbox, fates, k) == outbox[..k] && Sent(outbox, fates, k) == []
  {
    if k > 0 {
      NothingMoves(outbox, fates, k - 1);
      assert outbox[..k] == outbox[..k - 1] + [outbox[k - 1]];
    }
  }

  /******* Which messages get through *******/

  /** In every pass each message is published and deleted, except perhaps those in trouble. */
  ghost predicate FairRun(s: State, steps: seq<Step>, trouble: OutboxMessage -> bool) {
    steps != [] ==>
      && FairRun(s, steps[..|steps| - 1], trouble)
      && var step := steps[|steps| - 1];
         step.Pass? ==> FairPass(RunSteps(s, steps[..|steps| - 1]).outbox, trouble, step.fates)
  }

  /** Those in trouble are not rid of in this pass. */
  ghost predicate LastingPass(outbox: seq<OutboxMessage>, trouble: OutboxMessage -> bool, fates: nat -> Fate) {
    forall i | 0 <= i < Batch(outbox) && trouble(outbox[i]) :: fates(i) != Clean
  }

  /** Nor in any other. */
  ghost predicate LastingRun(s: State, steps: seq<Step>, trouble: OutboxMessage -> bool) {
    steps != [] ==>
      && LastingRun(s, steps[..|steps| - 1], trouble)
      && var step := steps[|steps| - 1];
         step.Pass? ==> LastingPass(RunSteps(s, steps[..|steps| - 1]).outbox, trouble, step.fates)
  }

  function PassCount(steps: seq<Step>): nat {
    if steps == [] then 0 else PassCount(steps[..|steps| - 1]) + if steps[|steps| - 1].Pass? then 1 else 0
  }

  /** The message is not written again; its number is used once. */
  ghost predicate NotWritten(steps: seq<Step>, m: OutboxMessage) {
    forall step | step in steps && step.Written? :: m !in step.msgs
  }

  lemma {:induction false} NoneCounted(s: seq<OutboxMessage>, p: OutboxMessage -> bool, m: OutboxMessage)
    requires Count(s, p) == 0 && m in s
    ensures !p(m)
  {
    assert s == s[..|s| - 1] + [s[|s| - 1]];
    if m in s[..|s| - 1] { NoneCounted(s[..|s| - 1], p, m); }
  }

  /** A fair pass over fewer messages ahead than it can take gets the message through. */
  lemma {:induction false} PassReaches(a: seq<OutboxMessage>, m: OutboxMessage, b: seq<OutboxMessage>,
      trouble: OutboxMessage -> bool, fates: nat -> Fate)
    requires m !in a && m !in b && !trouble(m) && |a| < BATCH
    requires FairPass(a + [m] + b, trouble, fates)
    ensures var outbox := a + [m] + b;
            m !in Left(outbox, fates, Batch(outbox)) && m in Sent(outbox, fates, Batch(outbox))
  {
    hide Stuck, Sent, FairPass, Count;
    var outbox, healthy := a + [m] + b, (x: OutboxMessage) => !trouble(x);
    var k := Batch(outbox);
    assert outbox[|a|] == m && m in outbox[..k] by { assert outbox[..k][|a|] == m; }
    StuckInTrouble(outbox, trouble, fates, k);
    if m in Stuck(outbox, fates, k) { NoneCounted(Stuck(outbox, fates, k), healthy, m); }
    GoneIsSent(outbox, fates, k, m);
    assert outbox[k..] == b[k - |a| - 1..];
  }

  /** A pass that ends ahead of the message: some of those ahead stay, all of them in trouble. */
  lemma {:induction false} PassFallsShort(a: seq<OutboxMessage>, m: OutboxMessage, b: seq<OutboxMessage>,
      trouble: OutboxMessage -> bool, fates: nat -> Fate) returns (a': seq<OutboxMessage>)
    requires |a| >= BATCH && FairPass(a + [m] + b, trouble, fates)
    ensures var outbox, healthy := a + [m] + b, (x: OutboxMessage) => !trouble(x);
            && Left(outbox, fates, Batch(outbox)) == a' + [m] + b
            && Count(a', trouble) <= Count(a, trouble)
            && Count(a', healthy) + BATCH <= Count(a, healthy) + Count(a, trouble)
            && (LastingPass(outbox, trouble, fates) ==> Count(a', trouble) == Count(a, trouble))
    ensures forall x | x in a' :: x in a
  {
    hide Stuck, FairPass, Count, LastingPass;
    var outbox, healthy := a + [m] + b, (x: OutboxMessage) => !trouble(x);
    var first, rest, stuck := a[..BATCH], a[BATCH..], Stuck(outbox, fates, BATCH);
    a' := stuck + rest;
    assert outbox[..BATCH] == first && outbox[BATCH..] == rest + [m] + b && a == first + rest;
    StuckInTrouble(outbox, trouble, fates, BATCH);
    CountSplits(first, rest, trouble);
    CountSplits(first, rest, healthy);
    CountSplits(stuck, rest, trouble);
    CountSplits(stuck, rest, healthy);
    CountComplement(first, trouble);
    if LastingPass(outbox, trouble, fates) { TroubleStays(outbox, trouble, fates, BATCH); }
  }

  lemma {:induction false} TroubleStays(outbox: seq<OutboxMessage>, trouble: OutboxMessage -> bool,
      fates: nat -> Fate, k: nat)
    requires k <= Batch(outbox) && LastingPass(outbox, trouble, fates)
    ensures Count(Stuck(outbox, fates, k), trouble) >= Count(outbox[..k], trouble)
  {
    hide Count;
    if k > 0 {
      TroubleStays(outbox, trouble, fates, k - 1);
      var rest, m := Stuck(outbox, fates, k - 1), outbox[k - 1];
      assert outbox[..k] == outbox[..k - 1] + [m];
      assert Stuck(outbox, fates, k) == if fates(k - 1) == Clean then rest else rest + [m];
      CountOneMore(outbox[..k - 1], m, trouble);
      CountOneMore(rest, m, trouble);
    } else {
      CountNothing(trouble);
    }
  }

  /** The message waits behind `a`, of which the counts tell how far the passes have come. */
  ghost predicate Waits(outbox: seq<OutboxMessage>, a: seq<OutboxMessage>, m: OutboxMessage, b: seq<OutboxMessage>) {
    outbox == a + [m] + b && m !in a && m !in b
  }

  /**
   * Liveness for one message, whatever is written meanwhile: with `f` < 100 messages in trouble ahead of it, it is
   * published and gone once n * (100 - f) exceeds the number of the others ahead.
   */
  lemma {:induction false} LeavesInTime(s: State, steps: seq<Step>, a: seq<OutboxMessage>, m: OutboxMessage,
      b: seq<OutboxMessage>, trouble: OutboxMessage -> bool) returns (a': seq<OutboxMessage>, b': seq<OutboxMessage>)
    requires Waits(s.outbox, a, m, b) && !trouble(m) && Count(a, trouble) < BATCH
    requires FairRun(s, steps, trouble) && NotWritten(steps, m)
    ensures var s', healthy := RunSteps(s, steps), (x: OutboxMessage) => !trouble(x);
            || (m !in s'.outbox && m in s'.log)
            || (&& Waits(s'.outbox, a', m, b') && Count(a', trouble) <= Count(a, trouble)
                && Count(a', healthy) + PassCount(steps) * (BATCH - Count(a, trouble)) <= Count(a, healthy))
  {
    hide Count, FairPass, Left, Sent, NotWritten;
    a', b' := a, b;
    if steps != [] {
      var init, step := steps[..|steps| - 1], steps[|steps| - 1];
      NotWrittenBefore(steps, m);
      a', b' := LeavesInTime(s, init, a, m, b, trouble);
      var s' := RunSteps(s, init);
      TimesOneMore(PassCount(init), BATCH - Count(a, trouble));
      if step.Written? {
        b' := b' + step.msgs;
      } else if m in s'.outbox {
        assert s'.outbox == a' + [m] + b';
        if |a'| < BATCH {
          PassReaches(a', m, b', trouble, step.fates);
        } else {
          a' := PassFallsShort(a', m, b', trouble, step.fates);
        }
      } else {
        LeftIsFewer(s'.outbox, step.fates);
      }
    }
  }

  lemma {:induction false} NotWrittenBefore(steps: seq<Step>, m: OutboxMessage)
    requires steps != [] && NotWritten(steps, m)
    ensures NotWritten(steps[..|steps| - 1], m)
    ensures steps[|steps| - 1].Written? ==> m !in steps[|steps| - 1].msgs
  {
  }

  lemma {:induction false} LeftIsFewer(outbox: seq<OutboxMessage>, fates: nat -> Fate)
    ensures forall m | m in Left(outbox, fates, Batch(outbox)) :: m in outbox
  {
  }

  /** A hundred in trouble ahead, for as long as it lasts, keep the message where it is. */
  lemma {:induction false} BlockedForGood(s: State, steps: seq<Step>, a: seq<OutboxMessage>, m: OutboxMessage,
      b: seq<OutboxMessage>, trouble: OutboxMessage -> bool) returns (a': seq<OutboxMessage>, b': seq<OutboxMessage>)
    requires s.outbox == a + [m] + b && Count(a, trouble) >= BATCH
    requires FairRun(s, steps, trouble) && LastingRun(s, steps, trouble)
    ensures RunSteps(s, steps).outbox == a' + [m] + b' && Count(a', trouble) >= BATCH
  {
    hide Count, FairPass, LastingPass, Left, Sent;
    a', b' := a, b;
    if steps != [] {
      var init, step := steps[..|steps| - 1], steps[|steps| - 1];
      a', b' := BlockedForGood(s, init, a, m, b, trouble);
      if step.Written? {
        assert a' + [m] + b' + step.msgs == a' + [m] + (b' + step.msgs);
        b' := b' + step.msgs;
      } else {
        a' := PassFallsShort(a', m, b', trouble, step.fates);
      }
    }
  }

  /** Just those in trouble fail. */
  function TroubleFails(outbox: seq<OutboxMessage>, trouble: OutboxMessage -> bool): nat -> Fate {
    (i: nat) => if i < |outbox| && trouble(outbox[i]) then PublishFails else Clean
  }

  /** `n` such passes. */
  ghost function LastingPasses(s: State, trouble: OutboxMessage -> bool, n: nat): seq<Step> {
    if n == 0 then []
    else
      var steps := LastingPasses(s, trouble, n - 1);
      steps + [Pass(TroubleFails(RunSteps(s, steps).outbox, trouble))]
  }

  lemma {:induction false} OneMorePass(s: State, trouble: OutboxMessage -> bool, init: seq<Step>, m: OutboxMessage)
    requires FairRun(s, init, trouble) && LastingRun(s, init, trouble) && NotWritten(init, m)
    ensures var steps := init + [Pass(TroubleFails(RunSteps(s, init).outbox, trouble))];
            && FairRun(s, steps, trouble) && LastingRun(s, steps, trouble) && NotWritten(steps, m)
            && PassCount(steps) == PassCount(init) + 1
  {
    var outbox := RunSteps(s, init).outbox;
    var steps := init + [Pass(TroubleFails(outbox, trouble))];
    hide RunSteps, Next;
    assert steps[..|steps| - 1] == init;
  }

  lemma {:induction false} LastingPassesLast(s: State, trouble: OutboxMessage -> bool, n: nat, m: OutboxMessage)
    ensures var steps := LastingPasses(s, trouble, n);
            FairRun(s, steps, trouble) && LastingRun(s, steps, trouble) && PassCount(steps) == n && NotWritten(steps, m)
  {
    hide TroubleFails, RunSteps;
    if n > 0 {
      LastingPassesLast(s, trouble, n - 1, m);
      hide FairRun, LastingRun, NotWritten, PassCount;
      OneMorePass(s, trouble, LastingPasses(s, trouble, n - 1), m);
    }
  }

  /** However the passes go that are fair, `n` of them get the message through. */
  ghost predicate GoneBy(s: State, m: OutboxMessage, trouble: OutboxMessage -> bool, n: nat) {
    forall steps | FairRun(s, steps, trouble) && NotWritten(steps, m) && PassCount(steps) >= n ::
      m !in RunSteps(s, steps).outbox && m in RunSteps(s, steps).log
  }

  /** Though the trouble lasts, the message gets through. */
  ghost predicate GetsThrough(s: State, m: OutboxMessage, trouble: OutboxMessage -> bool, steps: seq<Step>) {
    && FairRun(s, steps, trouble) && LastingRun(s, steps, trouble) && NotWritten(steps, m)
    && m !in RunSteps(s, steps).outbox
  }

  /**
   * The exact condition for a message that is not in trouble itself: some number of fair passes gets it through,
   * whatever is written meanwhile, if and only if fewer than a hundred ahead of it are in trouble. With a hundred or
   * more no run does in which their trouble lasts.
   */
  lemma {:induction false} DrainsExactly(s: State, a: seq<OutboxMessage>, m: OutboxMessage, b: seq<OutboxMessage>,
      trouble: OutboxMessage -> bool)
    requires Waits(s.outbox, a, m, b) && !trouble(m)
    ensures (exists n: nat :: GoneBy(s, m, trouble, n)) <==> Count(a, trouble) < 100
    ensures (exists steps :: GetsThrough(s, m, trouble, steps)) <==> Count(a, trouble) < 100
  {
    hide Count, FairRun, LastingRun, NotWritten;
    if Count(a, trouble) < BATCH {
      var n := Count(a, x => !trouble(x)) + 1;
      AllGoneBy(s, a, m, b, trouble, n);
      LastingPassesLast(s, trouble, n, m);
      assert GetsThrough(s, m, trouble, LastingPasses(s, trouble, n));
    } else {
      forall n: nat ensures !GoneBy(s, m, trouble, n) {
        LastingPassesLast(s, trouble, n, m);
        var a', b' := BlockedForGood(s, LastingPasses(s, trouble, n), a, m, b, trouble);
        assert m in RunSteps(s, LastingPasses(s, trouble, n)).outbox;
      }
      forall steps ensures !GetsThrough(s, m, trouble, steps) {
        if FairRun(s, steps, trouble) && LastingRun(s, steps, trouble) {
          var a', b' := BlockedForGood(s, steps, a, m, b, trouble);
          assert m in RunSteps(s, steps).outbox;
        }
      }
    }
  }

  lemma {:induction false} AllGoneBy(s: State, a: seq<OutboxMessage>, m: OutboxMessage, b: seq<OutboxMessage>,
      trouble: OutboxMessage -> bool, n: nat)
    requires Waits(s.outbox, a, m, b) && !trouble(m) && Count(a, trouble) < BATCH && n == Count(a, x => !trouble(x)) + 1
    ensures GoneBy(s, m, trouble, n)
  {
    hide Count, FairRun, NotWritten, RunSteps, PassCount;
    forall steps | FairRun(s, steps, trouble) && NotWritten(steps, m) && PassCount(steps) >= n
      ensures m !in RunSteps(s, steps).outbox && m in RunSteps(s, steps).log
    {
      var a', b' := LeavesInTime(s, steps, a, m, b, trouble);
      Enough(PassCount(steps), BATCH - Count(a, trouble), Count(a, x => !trouble(x)));
    }
  }

  lemma {:induction false} Enough(passes: nat, rate: int, waiting: nat)
    requires passes > waiting && rate > 0
    ensures passes * rate > waiting
  {
    TimesGrow(1, rate, passes);
  }
}
