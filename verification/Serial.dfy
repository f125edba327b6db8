/**
 * Many handlers at once: any number of consumers run calls on any number of executions, one
 * transaction at a time, each under the advisory lock that its execution's id hashes to. Only
 * retries of dead-lettered rows and cancellations take no lock.
 */
module Serial {
  import opened Models
  import opened Keys
  import opened Compensation
  import opened Tables
  import opened Adversary
  import opened Refinement

  /** All executions. The unique key is checked over every one of them. */
  type Db = map<string, Tables>

  /** What never changes: the definition of each execution, and the hash that picks its lock. */
  datatype Config = Config(wf: string -> Workflow, hash: string -> int, idLength: nat)

  /******* Transactions on the whole database *******/

  ghost predicate KeyTakenAnywhere(db: Db, key: string) {
    exists e | e in db :: KeyTaken(db[e].rows, key)
  }

  /** A transaction of execution `e`, with the unique key checked against every row there is. */
  ghost function CommitIn(db: Db, e: string, tx: Tx): (Db, bool)
    requires e in db && InRange(db[e], tx)
  {
    if IsLaunch(tx) && KeyTakenAnywhere(db, Key(db[e].exec, tx.next, tx.attempt)) then (db, false)
    else (db[e := Commit(db[e], tx).t], Commit(db[e], tx).ok)
  }

  ghost predicate KeysInOrder(c: Config, db: Db) {
    forall e | e in db :: |e| == c.idLength && db[e].exec == e && KeysFormed(db[e])
  }

  lemma {:induction false} TakenOnlyByItself(c: Config, db: Db, e: string, name: string, attempt: nat)
    requires KeysInOrder(c, db) && e in db
    ensures KeyTakenAnywhere(db, Key(e, name, attempt)) <==> KeyTaken(db[e].rows, Key(e, name, attempt))
  {
    if KeyTakenAnywhere(db, Key(e, name, attempt)) {
      var e' :| e' in db && KeyTaken(db[e'].rows, Key(e, name, attempt));
      var i :| 0 <= i < |db[e'].rows| && db[e'].rows[i].key == Key(e, name, attempt);
      KeyInjective(e, name, attempt, e', db[e'].rows[i].name, db[e'].rows[i].attempt);
    }
  }

  lemma {:induction false} CommitKeepsKeys(t: Tables, tx: Tx)
    requires KeysFormed(t) && InRange(t, tx)
    ensures KeysFormed(Commit(t, tx).t) && Commit(t, tx).t.exec == t.exec
  {
  }

  /**
   * With ids of one length the global check never sees another execution's keys: a transaction reads and
   * writes the rows of its own execution only.
   */
  lemma {:induction false} CommitIsLocal(c: Config, db: Db, e: string, tx: Tx)
    requires KeysInOrder(c, db) && e in db && InRange(db[e], tx)
    ensures CommitIn(db, e, tx) == (db[e := Commit(db[e], tx).t], Commit(db[e], tx).ok)
    ensures KeysInOrder(c, CommitIn(db, e, tx).0)
  {
    if IsLaunch(tx) {
      TakenOnlyByItself(c, db, e, tx.next, tx.attempt);
      if KeyTaken(db[e].rows, Key(e, tx.next, tx.attempt)) {
        assert Commit(db[e], tx) == Reply(db[e], false);
        assert db[e := db[e]] == db;
      }
    }
    CommitKeepsKeys(db[e], tx);
  }

  /******* Handlers step by step *******/

  datatype Phase =
    | Locked
    | Decided(first: Decision, before: ExecutionStatus)
    | Half(before: ExecutionStatus)
    | DecidedAgain(second: Decision)
    | Finished

  datatype Handler = Handler(e: string, call: Call, phase: Phase)

  /** How far a handler got before it finished or let go of its lock. */
  datatype Extent = Nothing | FirstOnly | Whole

  /** What has been done, in the order in which handlers finished or were cut off. */
  datatype Entry =
    | Started(e: string)
    | Handled(e: string, call: Call, extent: Extent)
    | Cancelled(e: string, reason: string)

  /** What a retry of row `id` has decided on, and will commit without a lock. */
  datatype Plan = Plan(e: string, id: nat, tx: Tx)

  datatype System = System(
    db: Db,
    holder: map<int, nat>,
    handlers: map<nat, Handler>,
    plans: map<nat, Plan>,
    done: seq<Entry>)

  datatype Turn =
    | Start(e: string)
    | Acquire(h: nat, e: string, call: Call)
    | Read(h: nat)
    | Write(h: nat)
    | Release(h: nat)
    | PlanRetry(r: nat, e: string, id: nat)
    | FireRetry(r: nat)
    | Cancel(e: string, reason: string)

  /** Calls that take the lock. */
  predicate TakesLock(call: Call) {
    !call.RetryDeadLettered?
  }

  /** The listing that a retry works with is one the database could give when the handler reads. */
  ghost predicate Sees(t: Tables, call: Call) {
    call.RetryCompensation? ==> IsListing(t.rows, call.acts)
  }

  function ExtentOf(p: Phase): Extent {
    match p
    case Locked => Nothing
    case Decided(_, _) => Nothing
    case Half(_) => FirstOnly
    case DecidedAgain(_) => FirstOnly
    case Finished => Whole
  }

  /** Reading: the handler decides what to commit next, on the tables as they are. */
  function ReadPhase(wf: Workflow, t: Tables, call: Call, p: Phase): Phase {
    match p
    case Locked => Decided(First(wf, t, call), t.status)
    case Half(before) => DecidedAgain(Second(wf, before, t, call))
    case _ => p
  }

  /** Committing what was decided; a return, or a refusal, finishes the handler. */
  ghost function WritePhase(db: Db, e: string, p: Phase): (r: (Db, Phase))
    requires e in db
  {
    match p
    case Decided(Do(tx), before) =>
      if InRange(db[e], tx) then
        var r := CommitIn(db, e, tx);
        (r.0, if r.1 then Half(before) else Phase.Finished)
      else (db, p)
    case Decided(Return(_), _) => (db, Phase.Finished)
    case DecidedAgain(Do(tx)) =>
      if InRange(db[e], tx) then (CommitIn(db, e, tx).0, Phase.Finished) else (db, p)
    case DecidedAgain(Return(_)) => (db, Phase.Finished)
    case _ => (db, p)
  }

  predicate Finishes(before: Phase, after: Phase) {
    after.Finished? && !before.Finished?
  }

  /** One step of one consumer. A step that is not possible changes nothing. A retry that is refused leaves no trace. */
  ghost function Next(c: Config, s: System, m: Turn): System {
    match m
    case Start(e) =>
      if e in s.db || |e| != c.idLength then s
      else s.(db := s.db[e := Create(e, c.wf(e))], done := s.done + [Started(e)])
    case Acquire(h, e, call) =>
      if h in s.handlers || e !in s.db || c.hash(e) in s.holder || !TakesLock(call) then s
      else s.(holder := s.holder[c.hash(e) := h], handlers := s.handlers[h := Handler(e, call, Locked)])
    case Read(h) =>
      if h !in s.handlers || s.handlers[h].e !in s.db || !Sees(s.db[s.handlers[h].e], s.handlers[h].call) then s
      else
        var x := s.handlers[h];
        s.(handlers := s.handlers[h := x.(phase := ReadPhase(c.wf(x.e), s.db[x.e], x.call, x.phase))])
    case Write(h) =>
      if h !in s.handlers || s.handlers[h].e !in s.db then s
      else
        var x := s.handlers[h];
        var r := WritePhase(s.db, x.e, x.phase);
        s.(db := r.0,
           handlers := s.handlers[h := x.(phase := r.1)],
           done := if Finishes(x.phase, r.1) then s.done + [Handled(x.e, x.call, Whole)] else s.done)
    case Release(h) =>
      if h !in s.handlers then s
      else
        var x := s.handlers[h];
        s.(holder := s.holder - {c.hash(x.e)},
           handlers := s.handlers - {h},
           done := if x.phase.Finished? then s.done else s.done + [Handled(x.e, x.call, ExtentOf(x.phase))])
    case PlanRetry(r, e, id) =>
      if r in s.plans || e !in s.db then s
      else
        (match First(c.wf(e), s.db[e], RetryDeadLettered(id))
         case Return(_) => s
         case Do(tx) => s.(plans := s.plans[r := Plan(e, id, tx)]))
    case FireRetry(r) =>
      if r !in s.plans || s.plans[r].e !in s.db || !InRange(s.db[s.plans[r].e], s.plans[r].tx) then s
      else
        var p := s.plans[r];
        var db := CommitIn(s.db, p.e, p.tx);
        s.(db := db.0,
           plans := s.plans - {r},
           done := if db.1 then s.done + [Handled(p.e, RetryDeadLettered(p.id), Whole)] else s.done)
    case Cancel(e, reason) =>
      if e !in s.db then s
      else
        s.(db := CommitIn(s.db, e, CancelExecution(reason)).0, done := s.done + [Entry.Cancelled(e, reason)])
  }

  ghost function RunTurns(c: Config, s: System, turns: seq<Turn>): System {
    if turns == [] then s else Next(c, RunTurns(c, s, turns[..|turns| - 1]), turns[|turns| - 1])
  }

  function Empty(): System {
    System(map[], map[], map[], map[], [])
  }

  /******* The same work, one handler after the other *******/

  function After(wf: Workflow, t: Tables, call: Call, extent: Extent): Tables {
    match extent
    case Nothing => t
    case FirstOnly => HandleCrashed(wf, t, call)
    case Whole => Handle(wf, t, call).t
  }

  function InOrder(c: Config, done: seq<Entry>): Db {
    if done == [] then map[]
    else
      var db, x := InOrder(c, done[..|done| - 1]), done[|done| - 1];
      match x
      case Started(e) => db[e := Create(e, c.wf(e))]
      case Handled(e, call, extent) => if e in db then db[e := After(c.wf(e), db[e], call, extent)] else db
      case Cancelled(e, reason) => if e in db then db[e := Commit(db[e], CancelExecution(reason)).t] else db
  }

  /** A handler that read the status `before` follows up as one that reads it now. */
  predicate Unturned(wf: Workflow, before: ExecutionStatus, t: Tables, call: Call) {
    First(wf, t, call).Do? ==>
      var t1 := Commit(t, First(wf, t, call).tx).t;
      Second(wf, before, t1, call) == Second(wf, t.status, t1, call)
  }

  /** A handler that found its execution at `t0` is where it should be, and so are the tables. */
  ghost predicate Underway(wf: Workflow, t0: Tables, t: Tables, x: Handler) {
    && TakesLock(x.call) && (x.phase != Locked && !x.phase.Finished? ==> Sees(t0, x.call))
    && match x.phase
       case Locked => t == t0
       case Decided(d, before) => t == t0 && d == First(wf, t0, x.call) && Unturned(wf, before, t0, x.call)
       case Half(before) => Halfway(wf, t0, t, x.call) && Unturned(wf, before, t0, x.call)
       case DecidedAgain(d) => Halfway(wf, t0, t, x.call) && d == Second(wf, t0.status, t, x.call)
       case Finished => t == t0
  }

  ghost predicate Halfway(wf: Workflow, t0: Tables, t: Tables, call: Call) {
    && First(wf, t0, call).Do?
    && Commit(t0, First(wf, t0, call).tx) == Reply(t, true)
  }

  /** Handlers hold the locks of their executions, so no two work on the same one. */
  ghost predicate Exclusive(c: Config, s: System) {
    forall h | h in s.handlers ::
      var e := s.handlers[h].e;
      e in s.db && c.hash(e) in s.holder && s.holder[c.hash(e)] == h
  }

  ghost predicate Free(s: System, e: string) {
    forall h | h in s.handlers :: s.handlers[h].e != e
  }

  /**
   * The handler would be where it is, had it found the tables at `t'`: it has read nothing yet; or committed nothing,
   * and would have decided the same and will follow up the same; or it is through.
   */
  ghost predicate Bears(wf: Workflow, t: Tables, t': Tables, x: Handler) {
    match x.phase
    case Locked => true
    case Decided(d, before) =>
      First(wf, t', x.call) == d && Unturned(wf, before, t', x.call) && (Sees(t, x.call) ==> Sees(t', x.call))
    case Finished => true
    case _ => false
  }

  ghost predicate AllBear(c: Config, s: System, e: string, t': Tables)
    requires e in s.db
  {
    forall h | h in s.handlers && s.handlers[h].e == e :: Bears(c.wf(e), s.db[e], t', s.handlers[h])
  }

  /**
   * A retry that is not refused would still decide what it decided, and the handler at work on its execution, if there
   * is one, bears it; so it does a cancellation.
   */
  ghost predicate Undisturbed(c: Config, s: System, m: Turn) {
    && (m.FireRetry? && m.r in s.plans ==>
          var p := s.plans[m.r];
          p.e in s.db && InRange(s.db[p.e], p.tx) && CommitIn(s.db, p.e, p.tx).1 ==>
            && First(c.wf(p.e), s.db[p.e], RetryDeadLettered(p.id)) == Do(p.tx)
            && AllBear(c, s, p.e, Commit(s.db[p.e], p.tx).t))
    && (m.Cancel? && m.e in s.db ==> AllBear(c, s, m.e, Commit(s.db[m.e], CancelExecution(m.reason)).t))
  }

  ghost predicate AllUndisturbed(c: Config, turns: seq<Turn>) {
    turns != [] ==>
      && AllUndisturbed(c, turns[..|turns| - 1])
      && Undisturbed(c, RunTurns(c, Empty(), turns[..|turns| - 1]), turns[|turns| - 1])
  }

  ghost predicate Consistent(c: Config, s: System) {
    && Exclusive(c, s) && KeysInOrder(c, s.db)
    && s.db.Keys == InOrder(c, s.done).Keys
    && (forall e | e in s.db && Free(s, e) :: s.db[e] == InOrder(c, s.done)[e])
    && (forall h | h in s.handlers :: HandlerOk(c, s, h))
  }

  ghost predicate HandlerOk(c: Config, s: System, h: nat)
    requires h in s.handlers
  {
    var x := s.handlers[h];
    x.e in s.db && x.e in InOrder(c, s.done) && Underway(c.wf(x.e), InOrder(c, s.done)[x.e], s.db[x.e], x)
  }

  /******* Every step keeps it *******/

  lemma {:induction false} InOrderSnoc(c: Config, done: seq<Entry>, x: Entry)
    ensures InOrder(c, done + [x]) ==
            match x
            case Started(e) => InOrder(c, done)[e := Create(e, c.wf(e))]
            case Handled(e, call, extent) =>
              if e in InOrder(c, done) then InOrder(c, done)[e := After(c.wf(e), InOrder(c, done)[e], call, extent)]
              else InOrder(c, done)
            case Cancelled(e, reason) =>
              if e in InOrder(c, done) then
                InOrder(c, done)[e := Commit(InOrder(c, done)[e], CancelExecution(reason)).t]
              else InOrder(c, done)
  {
  }

  lemma {:induction false} CreateHasKeys(c: Config, db: Db, e: string)
    requires KeysInOrder(c, db) && |e| == c.idLength
    ensures KeysInOrder(c, db[e := Create(e, c.wf(e))])
  {
  }

  lemma {:induction false} ExclusiveStarts(c: Config, s: System, e: string, t: Tables)
    requires Exclusive(c, s)
    ensures Exclusive(c, s.(db := s.db[e := t], done := s.done + [Started(e)]))
  {
  }

  lemma {:induction false} ExclusiveAcquires(c: Config, s: System, h: nat, e: string, x: Handler)
    requires Exclusive(c, s) && e in s.db && c.hash(e) !in s.holder && h !in s.handlers && x.e == e
    ensures Free(s, e)
    ensures Exclusive(c, s.(holder := s.holder[c.hash(e) := h], handlers := s.handlers[h := x]))
  {
  }

  lemma {:induction false} StartKeeps(c: Config, s: System, e: string)
    requires Consistent(c, s)
    ensures Consistent(c, Next(c, s, Start(e)))
  {
    hide KeysInOrder, Underway, Create, Exclusive, InOrder;
    var s' := Next(c, s, Start(e));
    if s' != s {
      ExclusiveStarts(c, s, e, Create(e, c.wf(e)));
      InOrderSnoc(c, s.done, Started(e));
      CreateHasKeys(c, s.db, e);
      forall h | h in s'.handlers ensures HandlerOk(c, s', h) {
        assert HandlerOk(c, s, h);
      }
      forall x | x in s'.db && Free(s', x) ensures s'.db[x] == InOrder(c, s'.done)[x] {
        assert x != e ==> Free(s, x);
      }
    }
  }

  lemma {:induction false} FreshIsUnderway(wf: Workflow, t: Tables, x: Handler)
    requires x.phase == Locked && TakesLock(x.call)
    ensures Underway(wf, t, t, x)
  {
  }

  lemma {:induction false} AcquireKeeps(c: Config, s: System, h: nat, e: string, call: Call)
    requires Consistent(c, s)
    ensures Consistent(c, Next(c, s, Acquire(h, e, call)))
  {
    hide KeysInOrder, InOrder, Underway, Exclusive;
    var s' := Next(c, s, Acquire(h, e, call));
    if s' != s {
      ExclusiveAcquires(c, s, h, e, Handler(e, call, Locked));
      FreshIsUnderway(c.wf(e), s.db[e], Handler(e, call, Locked));
      forall h' | h' in s'.handlers ensures HandlerOk(c, s', h') {
        assert h' != h ==> HandlerOk(c, s, h');
      }
      forall x | x in s'.db && Free(s', x) ensures s'.db[x] == InOrder(c, s'.done)[x] {
        FreeBefore(s, s', x);
      }
    }
  }

  /** Two handlers never work on one execution, even when ids hash alike. */
  lemma {:induction false} NeverTwoOnOne(c: Config, s: System, h: nat, h': nat)
    requires Exclusive(c, s) && h in s.handlers && h' in s.handlers
    requires s.handlers[h].e == s.handlers[h'].e
    ensures h == h'
  {
  }

  lemma {:induction false} ReadIsUnderway(wf: Workflow, t0: Tables, t: Tables, x: Handler)
    requires Underway(wf, t0, t, x) && Sees(t, x.call)
    ensures Underway(wf, t0, t, x.(phase := ReadPhase(wf, t, x.call, x.phase)))
  {
    hide First, Second, Commit;
  }

  /** One handler moves on and leaves its tables at `t`. */
  ghost function Moved(s: System, h: nat, t: Tables, p: Phase): System
    requires h in s.handlers
  {
    var x := s.handlers[h];
    s.(db := s.db[x.e := t], handlers := s.handlers[h := x.(phase := p)])
  }

  /** This has no effect on the others. The serial order may have moved on with it. */
  lemma {:induction false} HandlerMoves(c: Config, s: System, s': System, h: nat, t: Tables, p: Phase, t0: Tables)
    requires Consistent(c, s) && h in s.handlers && s.handlers[h].e in InOrder(c, s.done)
    requires s' == Moved(s, h, t, p).(done := s'.done)
    requires InOrder(c, s'.done) == InOrder(c, s.done)[s.handlers[h].e := t0]
    requires var x := s.handlers[h]; Underway(c.wf(x.e), t0, t, x.(phase := p))
    requires KeysInOrder(c, s'.db)
    ensures Consistent(c, s')
  {
    hide KeysInOrder, InOrder, Underway, Exclusive;
    var e := s.handlers[h].e;
    ExclusiveMoves(c, s, h, t, p);
    ExclusiveFires(c, Moved(s, h, t, p), s');
    forall h' | h' in s'.handlers ensures HandlerOk(c, s', h') {
      assert HandlerOk(c, s, h');
      if h' != h && s.handlers[h'].e == e { NeverTwoOnOne(c, s, h, h'); }
    }
    forall x | x in s'.db && Free(s', x) ensures s'.db[x] == InOrder(c, s'.done)[x] {
      assert s'.handlers[h].e == e != x;
      FreeBefore(s, s', x);
    }
  }

  lemma {:induction false} ExclusiveMoves(c: Config, s: System, h: nat, t: Tables, p: Phase)
    requires Exclusive(c, s) && h in s.handlers
    ensures Exclusive(c, Moved(s, h, t, p))
  {
  }

  lemma {:induction false} FreeBefore(s: System, s': System, e: string)
    requires Free(s', e)
    requires forall h | h in s.handlers && s.handlers[h].e == e :: h in s'.handlers && s'.handlers[h].e == e
    ensures Free(s, e)
  {
  }

  lemma {:induction false} ReadKeeps(c: Config, s: System, h: nat)
    requires Consistent(c, s)
    ensures Consistent(c, Next(c, s, Read(h)))
  {
    hide KeysInOrder, InOrder, Underway;
    var s' := Next(c, s, Read(h));
    if s' != s {
      var x := s.handlers[h];
      assert HandlerOk(c, s, h);
      ReadIsUnderway(c.wf(x.e), InOrder(c, s.done)[x.e], s.db[x.e], x);
      assert s.db[x.e := s.db[x.e]] == s.db;
      assert InOrder(c, s.done) == InOrder(c, s.done)[x.e := InOrder(c, s.done)[x.e]];
      HandlerMoves(c, s, s', h, s.db[x.e], s'.handlers[h].phase, InOrder(c, s.done)[x.e]);
    }
  }

  lemma {:induction false} WriteIsUnderway(c: Config, db: Db, t0: Tables, x: Handler)
    requires KeysInOrder(c, db) && x.e in db && Underway(c.wf(x.e), t0, db[x.e], x)
    ensures var r := WritePhase(db, x.e, x.phase);
            && x.e in r.0 && r.0 == db[x.e := r.0[x.e]] && KeysInOrder(c, r.0)
            && (if Finishes(x.phase, r.1) then r.0[x.e] == Handle(c.wf(x.e), t0, x.call).t && Sees(t0, x.call)
                else Underway(c.wf(x.e), t0, r.0[x.e], x.(phase := r.1)))
  {
    hide First, Second, Commit, KeysInOrder, CommitIn;
    assert db[x.e := db[x.e]] == db;
    match x.phase
    case Decided(Do(tx), before) => CommitIsLocal(c, db, x.e, tx);
    case DecidedAgain(Do(tx)) => CommitIsLocal(c, db, x.e, tx);
    case _ =>
  }

  lemma {:induction false} FinishedIsUnderway(wf: Workflow, t: Tables, x: Handler)
    requires TakesLock(x.call) && x.phase.Finished?
    ensures Underway(wf, t, t, x)
  {
  }

  lemma {:induction false} UnderwayTakesLock(wf: Workflow, t0: Tables, t: Tables, x: Handler)
    requires Underway(wf, t0, t, x)
    ensures TakesLock(x.call)
  {
  }

  lemma {:induction false} WriteKeeps(c: Config, s: System, h: nat)
    requires Consistent(c, s)
    ensures Consistent(c, Next(c, s, Write(h)))
  {
    hide KeysInOrder, InOrder, Underway, WritePhase, After;
    if h in s.handlers && s.handlers[h].e in s.db {
      var s', x := Next(c, s, Write(h)), s.handlers[h];
      var e, p, t0 := x.e, s'.handlers[h].phase, InOrder(c, s.done)[x.e];
      assert HandlerOk(c, s, h);
      WriteIsUnderway(c, s.db, t0, x);
      if Finishes(x.phase, p) {
        UnderwayTakesLock(c.wf(e), t0, s.db[e], x);
        FinishedIsUnderway(c.wf(e), s'.db[e], x.(phase := p));
        InOrderSnoc(c, s.done, Handled(e, x.call, Whole));
        WholeIsHandle(c.wf(e), t0, x.call);
        HandlerMoves(c, s, s', h, s'.db[e], p, s'.db[e]);
      } else {
        assert InOrder(c, s.done) == InOrder(c, s.done)[e := t0];
        HandlerMoves(c, s, s', h, s'.db[e], p, t0);
      }
    }
  }

  lemma {:induction false} WholeIsHandle(wf: Workflow, t: Tables, call: Call)
    ensures After(wf, t, call, Whole) == Handle(wf, t, call).t
  {
  }

  /** Where a handler stands that is not through, its tables are those of the part that it has done. */
  lemma {:induction false} UnderwayIsAfter(wf: Workflow, t0: Tables, t: Tables, x: Handler)
    requires Underway(wf, t0, t, x)
    ensures if x.phase.Finished? then t == t0 else t == After(wf, t0, x.call, ExtentOf(x.phase))
    ensures TakesLock(x.call) && (!x.phase.Finished? && ExtentOf(x.phase) != Nothing ==> Sees(t0, x.call))
  {
  }

  /** The handler lets go where its tables are what the serial order says. */
  lemma {:induction false} LetGo(c: Config, s: System, s': System, h: nat)
    requires Consistent(c, s) && h in s.handlers && s'.db == s.db
    requires var e := s.handlers[h].e;
             && s'.holder == s.holder - {c.hash(e)} && s'.handlers == s.handlers - {h}
             && e in s.db && InOrder(c, s'.done) == InOrder(c, s.done)[e := s.db[e]]
    ensures Consistent(c, s')
  {
    hide KeysInOrder, InOrder, Underway;
    var e := s.handlers[h].e;
    forall h' | h' in s'.handlers ensures HandlerOk(c, s', h') && c.hash(s'.handlers[h'].e) in s'.holder {
      assert HandlerOk(c, s, h');
      if s.handlers[h'].e == e { NeverTwoOnOne(c, s, h, h'); }
      assert c.hash(s.handlers[h'].e) != c.hash(e);
    }
    forall y | y in s'.db && Free(s', y) ensures s'.db[y] == InOrder(c, s'.done)[y] {
      if y != e { FreeBefore(s, s', y); }
    }
  }

  lemma {:induction false} ReleaseKeeps(c: Config, s: System, h: nat)
    requires Consistent(c, s)
    ensures Consistent(c, Next(c, s, Release(h)))
  {
    hide KeysInOrder, InOrder, Underway, After, Exclusive;
    if h in s.handlers {
      var x := s.handlers[h];
      assert HandlerOk(c, s, h);
      UnderwayIsAfter(c.wf(x.e), InOrder(c, s.done)[x.e], s.db[x.e], x);
      InOrderSnoc(c, s.done, Handled(x.e, x.call, ExtentOf(x.phase)));
      LetGo(c, s, Next(c, s, Release(h)), h);
    }
  }

  lemma {:induction false} PlanKeeps(c: Config, s: System, plans: map<nat, Plan>)
    requires Consistent(c, s)
    ensures Consistent(c, s.(plans := plans))
  {
    hide KeysInOrder, InOrder, Underway;
    var s' := s.(plans := plans);
    forall h | h in s'.handlers ensures HandlerOk(c, s', h) { assert HandlerOk(c, s, h); }
    forall e | e in s'.db && Free(s', e) ensures s'.db[e] == InOrder(c, s'.done)[e] { assert Free(s, e); }
  }

  /** Where the handler bears it, tables and serial order can both be at `t'`. */
  lemma {:induction false} BearsIt(wf: Workflow, t0: Tables, t: Tables, t': Tables, x: Handler)
    requires Underway(wf, t0, t, x) && Bears(wf, t, t', x)
    ensures t == t0 && Underway(wf, t', t', x)
  {
    hide First, Second;
  }

  /** There the tables are those of the serial order. */
  lemma {:induction false} QuietTables(c: Config, s: System, e: string, t': Tables)
    requires Consistent(c, s) && e in s.db && AllBear(c, s, e, t')
    ensures e in InOrder(c, s.done) && s.db[e] == InOrder(c, s.done)[e]
  {
    hide KeysInOrder, InOrder, Underway, Exclusive, Bears;
    if h :| h in s.handlers && s.handlers[h].e == e {
      assert HandlerOk(c, s, h);
      BearsIt(c.wf(e), InOrder(c, s.done)[e], s.db[e], t', s.handlers[h]);
    } else {
      assert Free(s, e);
    }
  }

  lemma {:induction false} RetryIsOneTransaction(wf: Workflow, t: Tables, id: nat, tx: Tx)
    requires First(wf, t, RetryDeadLettered(id)) == Do(tx)
    ensures InRange(t, tx) && Handle(wf, t, RetryDeadLettered(id)).t == Commit(t, tx).t
  {
    hide Commit;
  }

  /** Tables and serial order move alike where the handler at work bears it. */
  lemma {:induction false} QuietMove(c: Config, s: System, s': System, e: string, t': Tables)
    requires Consistent(c, s) && e in s.db && AllBear(c, s, e, t') && KeysInOrder(c, s'.db)
    requires s'.handlers == s.handlers && s'.holder == s.holder && s'.db == s.db[e := t']
    requires InOrder(c, s'.done) == InOrder(c, s.done)[e := t']
    ensures Consistent(c, s')
  {
    hide KeysInOrder, InOrder, Underway, Exclusive, Bears;
    ExclusiveFires(c, s, s');
    forall h | h in s'.handlers ensures HandlerOk(c, s', h) {
      assert HandlerOk(c, s, h);
      if s.handlers[h].e == e { BearsIt(c.wf(e), InOrder(c, s.done)[e], s.db[e], t', s.handlers[h]); }
    }
    forall x | x in s'.db && Free(s', x) ensures s'.db[x] == InOrder(c, s'.done)[x] {
      assert Free(s, x);
    }
  }

  lemma {:induction false} Fired(c: Config, s: System, r: nat)
    requires Consistent(c, s) && Undisturbed(c, s, FireRetry(r)) && r in s.plans && s.plans[r].e in s.db
    requires var p := s.plans[r]; InRange(s.db[p.e], p.tx) && CommitIn(s.db, p.e, p.tx).1
    ensures var p := s.plans[r];
            && AllBear(c, s, p.e, Commit(s.db[p.e], p.tx).t)
            && First(c.wf(p.e), s.db[p.e], RetryDeadLettered(p.id)) == Do(p.tx)
            && KeysInOrder(c, s.db)
            && Next(c, s, FireRetry(r)) ==
               s.(db := CommitIn(s.db, p.e, p.tx).0, plans := s.plans - {r},
                  done := s.done + [Handled(p.e, RetryDeadLettered(p.id), Whole)])
  {
    hide Exclusive, KeysInOrder, HandlerOk, InOrder, CommitIn, AllBear, Commit, First;
  }

  lemma {:induction false} FireKeeps(c: Config, s: System, r: nat)
    requires Consistent(c, s) && Undisturbed(c, s, FireRetry(r)) && r in s.plans && s.plans[r].e in s.db
    requires var p := s.plans[r]; InRange(s.db[p.e], p.tx) && CommitIn(s.db, p.e, p.tx).1
    ensures Consistent(c, Next(c, s, FireRetry(r)))
  {
    hide Commit, First, CommitIn, Handle, Consistent, Next, InOrder, KeysInOrder, AllBear, Undisturbed, After;
    var p := s.plans[r];
    var e, t := p.e, s.db[p.e];
    Fired(c, s, r);
    QuietTables(c, s, e, Commit(t, p.tx).t);
    RetryIsOneTransaction(c.wf(e), t, p.id, p.tx);
    CommitIsLocal(c, s.db, e, p.tx);
    InOrderSnoc(c, s.done, Handled(e, RetryDeadLettered(p.id), Whole));
    WholeIsHandle(c.wf(e), t, RetryDeadLettered(p.id));
    QuietMove(c, s, Next(c, s, FireRetry(r)), e, Commit(t, p.tx).t);
  }

  lemma {:induction false} ConsistentKeys(c: Config, s: System)
    requires Consistent(c, s)
    ensures KeysInOrder(c, s.db)
  {
  }

  /** A retry that is refused changes nothing. */
  lemma {:induction false} RefusedFire(c: Config, s: System, r: nat)
    requires Consistent(c, s) && r in s.plans && s.plans[r].e in s.db
    requires var p := s.plans[r]; InRange(s.db[p.e], p.tx) && !CommitIn(s.db, p.e, p.tx).1
    ensures Consistent(c, Next(c, s, FireRetry(r)))
  {
    hide Consistent, CommitIn, Commit, KeysInOrder;
    var p := s.plans[r];
    ConsistentKeys(c, s);
    CommitIsLocal(c, s.db, p.e, p.tx);
    RefusedChangesNothing(s.db[p.e], p.tx);
    assert s.db[p.e := s.db[p.e]] == s.db;
    PlanKeeps(c, s, s.plans - {r});
  }

  lemma {:induction false} RefusedChangesNothing(t: Tables, tx: Tx)
    requires InRange(t, tx) && !Commit(t, tx).ok
    ensures Commit(t, tx).t == t
  {
  }

  lemma {:induction false} CancelKeeps(c: Config, s: System, e: string, reason: string)
    requires Consistent(c, s) && e in s.db && AllBear(c, s, e, Commit(s.db[e], CancelExecution(reason)).t)
    ensures Consistent(c, Next(c, s, Cancel(e, reason)))
  {
    hide Commit, CommitIn, InOrder, KeysInOrder, AllBear, HandlerOk, Exclusive;
    var tx := CancelExecution(reason);
    QuietTables(c, s, e, Commit(s.db[e], tx).t);
    CommitIsLocal(c, s.db, e, tx);
    InOrderSnoc(c, s.done, Entry.Cancelled(e, reason));
    QuietMove(c, s, Next(c, s, Cancel(e, reason)), e, Commit(s.db[e], tx).t);
  }

  lemma {:induction false} ExclusiveFires(c: Config, s: System, s': System)
    requires Exclusive(c, s) && s'.handlers == s.handlers && s'.holder == s.holder && s'.db.Keys == s.db.Keys
    ensures Exclusive(c, s')
  {
  }

  lemma {:induction false} RetryKeeps(c: Config, s: System, m: Turn)
    requires Consistent(c, s) && Undisturbed(c, s, m) && (m.PlanRetry? || m.FireRetry? || m.Cancel?)
    ensures Consistent(c, Next(c, s, m))
  {
    hide Consistent, CommitIn, First, AllBear, Commit;
    if m.PlanRetry? {
      PlanKeeps(c, s, Next(c, s, m).plans);
    } else if m.Cancel? {
      if m.e in s.db { CancelKeeps(c, s, m.e, m.reason); }
    } else if m.r in s.plans && s.plans[m.r].e in s.db && InRange(s.db[s.plans[m.r].e], s.plans[m.r].tx) {
      if CommitIn(s.db, s.plans[m.r].e, s.plans[m.r].tx).1 { FireKeeps(c, s, m.r); } else { RefusedFire(c, s, m.r); }
    }
  }

  lemma {:induction false} NextKeeps(c: Config, s: System, m: Turn)
    requires Consistent(c, s) && Undisturbed(c, s, m)
    ensures Consistent(c, Next(c, s, m))
  {
    hide Consistent, Next, Undisturbed;
    match m
    case Start(e) => StartKeeps(c, s, e);
    case Acquire(h, e, call) => AcquireKeeps(c, s, h, e, call);
    case Read(h) => ReadKeeps(c, s, h);
    case Write(h) => WriteKeeps(c, s, h);
    case Release(h) => ReleaseKeeps(c, s, h);
    case PlanRetry(_, _, _) => RetryKeeps(c, s, m);
    case FireRetry(_) => RetryKeeps(c, s, m);
    case Cancel(_, _) => RetryKeeps(c, s, m);
  }

  lemma {:induction false} RunIsConsistent(c: Config, turns: seq<Turn>)
    requires AllUndisturbed(c, turns)
    ensures Consistent(c, RunTurns(c, Empty(), turns))
  {
    hide Consistent, Next, Undisturbed;
    if turns == [] {
      EmptyIsConsistent(c);
    } else {
      RunIsConsistent(c, turns[..|turns| - 1]);
      NextKeeps(c, RunTurns(c, Empty(), turns[..|turns| - 1]), turns[|turns| - 1]);
    }
  }

  lemma {:induction false} EmptyIsConsistent(c: Config)
    ensures Consistent(c, Empty())
  {
  }

  /**
   * Serialisation: whatever the interleaving, executions that nobody works on are as if the calls had run one
   * after the other, whole or cut off where their process died, in the order in which they finished or were cut
   * off; and no two calls work on one execution at once. With nobody at work this is the whole database.
   * Retries of dead-lettered rows and cancellations, which take no lock, fit in where they commit, if they are refused,
   * or the handler at work on their execution bears them and the retries would still decide the same. Which ones
   * handlers bear is exact, see `Races`.
   */
  lemma {:induction false} RunsSerially(c: Config, turns: seq<Turn>)
    requires AllUndisturbed(c, turns)
    ensures var s := RunTurns(c, Empty(), turns);
            && s.db.Keys == InOrder(c, s.done).Keys
            && (forall e | e in s.db && Free(s, e) :: s.db[e] == InOrder(c, s.done)[e])
            && (forall h, h' | h in s.handlers && h' in s.handlers && s.handlers[h].e == s.handlers[h'].e :: h == h')
            && (s.handlers == map[] ==> s.db == InOrder(c, s.done))
  {
    RunIsConsistent(c, turns);
    var s := RunTurns(c, Empty(), turns);
    forall h, h' | h in s.handlers && h' in s.handlers && s.handlers[h].e == s.handlers[h'].e ensures h == h' {
      NeverTwoOnOne(c, s, h, h');
    }
    if s.handlers == map[] {
      forall e | e in s.db ensures s.db[e] == InOrder(c, s.done)[e] {
        assert Free(s, e);
      }
    }
  }

  /** Without these nothing is asked for. */
  lemma {:induction false} LockedRunsAreUndisturbed(c: Config, turns: seq<Turn>)
    requires forall m | m in turns :: !m.FireRetry? && !m.Cancel?
    ensures AllUndisturbed(c, turns)
  {
    if turns != [] {
      var init, m := turns[..|turns| - 1], turns[|turns| - 1];
      assert m in turns && forall x | x in init :: x in turns;
      LockedRunsAreUndisturbed(c, init);
    }
  }

  /** No process dies: handlers release their locks only when they are through. */
  ghost predicate Graceful(c: Config, turns: seq<Turn>) {
    turns != [] ==>
      && Graceful(c, turns[..|turns| - 1])
      && var s, m := RunTurns(c, Empty(), turns[..|turns| - 1]), turns[|turns| - 1];
         m.Release? && m.h in s.handlers ==> s.handlers[m.h].phase == Phase.Finished
  }

  lemma {:induction false} GracefulExtents(c: Config, turns: seq<Turn>)
    requires Graceful(c, turns)
    ensures forall x | x in RunTurns(c, Empty(), turns).done && x.Handled? :: x.extent == Whole
  {
    hide WritePhase, ReadPhase, Create, CommitIn, First;
    if turns != [] {
      GracefulExtents(c, turns[..|turns| - 1]);
    }
  }

  /** Whole handlers, one after the other. */
  function WholeInOrder(c: Config, done: seq<Entry>): Db {
    if done == [] then map[]
    else
      var db, x := WholeInOrder(c, done[..|done| - 1]), done[|done| - 1];
      match x
      case Started(e) => db[e := Create(e, c.wf(e))]
      case Handled(e, call, _) => if e in db then db[e := Handle(c.wf(e), db[e], call).t] else db
      case Cancelled(e, reason) => if e in db then db[e := Commit(db[e], CancelExecution(reason)).t] else db
  }

  lemma {:induction false} AllWhole(c: Config, done: seq<Entry>)
    requires forall x | x in done && x.Handled? :: x.extent == Whole
    ensures InOrder(c, done) == WholeInOrder(c, done)
  {
    hide Create, Handle, HandleCrashed, Commit;
    if done != [] {
      var init, x := done[..|done| - 1], done[|done| - 1];
      assert x in done && forall y | y in init :: y in done;
      AllWhole(c, init);
    }
  }

  /** When no process dies and nobody is at work, the database is that of whole handlers run one after the other. */
  lemma {:induction false} GracefulRunsAreWhole(c: Config, turns: seq<Turn>)
    requires Graceful(c, turns) && AllUndisturbed(c, turns) && RunTurns(c, Empty(), turns).handlers == map[]
    ensures RunTurns(c, Empty(), turns).db == WholeInOrder(c, RunTurns(c, Empty(), turns).done)
  {
    hide RunTurns, InOrder, WholeInOrder, Graceful, AllUndisturbed;
    GracefulExtents(c, turns);
    RunsSerially(c, turns);
    AllWhole(c, RunTurns(c, Empty(), turns).done);
  }

  /******* Together with the refinement *******/

  /** The action that a call is. */
  function ActionOf(x: Entry): Action
    requires x.Handled?
  {
    match x.call
    case ReportSuccess(id) => Deliver(id)
    case ReportFailure(id, _) => Deliver(id)
    case RetryCompensation(acts) => RetryComp(acts)
    case RetryDeadLettered(id) => RetryDead(id)
  }

  /** The actions on one execution among all that was done. */
  function ActionsOf(o: Outcomes, done: seq<Entry>, e: string): seq<Action> {
    if done == [] then []
    else
      var x := done[|done| - 1];
      ActionsOf(o, done[..|done| - 1], e) + if x.Handled? && x.e == e then [ActionOf(x)] else []
  }

  /**
   * Calls on `e` ran whole, each result reported is the outcome of its id, dead-lettered rows are retried where the
   * saga admits it, and the execution is not cancelled.
   */
  ghost predicate Faithful(c: Config, o: Outcomes, done: seq<Entry>, e: string) {
    done != [] ==>
      && Faithful(c, o, done[..|done| - 1], e)
      && var db, x := InOrder(c, done[..|done| - 1]), done[|done| - 1];
         x.e == e && e in db ==> !x.Cancelled? && (x.Handled? ==> TrueTo(c.wf(e), db[e], o, x))
  }

  ghost predicate TrueTo(wf: Workflow, t: Tables, o: Outcomes, x: Entry)
    requires x.Handled?
  {
    && x.extent == Whole
    && (x.call.ReportSuccess? ==> o(x.call.id).Succeeds?)
    && (x.call.ReportFailure? ==> o(x.call.id) == Fails(x.call.nonRetryable))
    && (x.call.RetryDeadLettered? ==> Admissible(wf, t, RetryDead(x.call.id)))
  }

  /** An entry that can follow when the database is `db`. */
  ghost predicate Follows(db: Db, x: Entry) {
    match x
    case Started(e) => e !in db
    case Handled(e, call, extent) =>
      e in db && (extent != Nothing ==> Sees(db[e], call)) && (TakesLock(call) || extent == Whole)
    case Cancelled(e, _) => e in db
  }

  ghost predicate Orderly(c: Config, done: seq<Entry>) {
    done != [] ==> Orderly(c, done[..|done| - 1]) && Follows(InOrder(c, done[..|done| - 1]), done[|done| - 1])
  }

  lemma {:induction false} NextIsOrderly(c: Config, s: System, m: Turn)
    requires Consistent(c, s) && Orderly(c, s.done)
    ensures Orderly(c, Next(c, s, m).done)
  {
    hide KeysInOrder, InOrder, Underway, After, CommitIn, First, ReadPhase, WritePhase;
    var s' := Next(c, s, m);
    if s'.done != s.done {
      var x := s'.done[|s.done|];
      assert s'.done == s.done + [x] && (s.done + [x])[..|s.done|] == s.done;
      if m.Release? {
        var y := s.handlers[m.h];
        assert HandlerOk(c, s, m.h);
        UnderwayIsAfter(c.wf(y.e), InOrder(c, s.done)[y.e], s.db[y.e], y);
      }
      if m.Write? {
        var y := s.handlers[m.h];
        assert HandlerOk(c, s, m.h);
        WriteIsUnderway(c, s.db, InOrder(c, s.done)[y.e], y);
      }
      assert Follows(InOrder(c, s.done), x);
    }
  }

  lemma {:induction false} RunIsOrderly(c: Config, turns: seq<Turn>)
    requires AllUndisturbed(c, turns)
    ensures Orderly(c, RunTurns(c, Empty(), turns).done)
  {
    if turns != [] {
      RunIsOrderly(c, turns[..|turns| - 1]);
      RunIsConsistent(c, turns[..|turns| - 1]);
      NextIsOrderly(c, RunTurns(c, Empty(), turns[..|turns| - 1]), turns[|turns| - 1]);
    }
  }

  lemma {:induction false} EntryIsAnAction(wf: Workflow, t: Tables, o: Outcomes, x: Entry)
    requires x.Handled? && TrueTo(wf, t, o, x) && Sees(t, x.call)
    ensures After(wf, t, x.call, x.extent) == Act(wf, t, o, ActionOf(x)) && Admissible(wf, t, ActionOf(x))
  {
    hide Handle, IsForward;
  }

  lemma {:induction false} EmptyRun(wf: Workflow, t: Tables, o: Outcomes)
    ensures Run(wf, t, o, []) == t && AllAdmissible(wf, t, o, [])
  {
  }

  /** What was done to one execution, in order, is a run of the engine on it. */
  lemma {:induction false} OrderIsARun(c: Config, o: Outcomes, done: seq<Entry>, e: string)
    requires Orderly(c, done) && Faithful(c, o, done, e)
    ensures e !in InOrder(c, done) ==> ActionsOf(o, done, e) == []
    ensures e in InOrder(c, done) ==>
              && InOrder(c, done)[e] == Run(c.wf(e), Create(e, c.wf(e)), o, ActionsOf(o, done, e))
              && AllAdmissible(c.wf(e), Create(e, c.wf(e)), o, ActionsOf(o, done, e))
  {
    hide Run, AllAdmissible, Create, Handle, Admissible, After, Sees, ActionOf;
    if done == [] {
    } else {
      var init, x := done[..|done| - 1], done[|done| - 1];
      OrderIsARun(c, o, init, e);
      if x.e == e {
        if x.Started? {
          assert ActionsOf(o, done, e) == [];
          EmptyRun(c.wf(e), Create(e, c.wf(e)), o);
        } else {
          var t := InOrder(c, init)[e];
          EntryIsAnAction(c.wf(e), t, o, x);
          RunSnoc(c.wf(e), Create(e, c.wf(e)), o, ActionsOf(o, init, e), ActionOf(x));
          assert ActionsOf(o, done, e) == ActionsOf(o, init, e) + [ActionOf(x)];
        }
      } else {
        assert ActionsOf(o, done, e) == ActionsOf(o, init, e);
      }
    }
  }

  /**
   * The saga guarantees hold under concurrency: if every call on an execution ran to its end, every report was the
   * outcome of its id, and calls without a lock disturbed nobody and were admissible, then whenever nobody works on it
   * the execution is in a state of the saga, whatever else happens to whatever other executions.
   */
  lemma {:induction false} ConcurrentEngineRefinesSaga(c: Config, turns: seq<Turn>, o: Outcomes, e: string)
    requires var s := RunTurns(c, Empty(), turns);
             e in s.db && Free(s, e) && Faithful(c, o, s.done, e)
    requires Definition(c.wf(e)) && AllUndisturbed(c, turns)
    ensures var s := RunTurns(c, Empty(), turns);
            && s.db[e] == Run(c.wf(e), Create(e, c.wf(e)), o, ActionsOf(o, s.done, e))
            && Refines(c.wf(e), s.db[e]) && Agrees(s.db[e], o)
  {
    hide Run, Refines, RunTurns, Definition, Create, Faithful, Free, AllUndisturbed;
    var s := RunTurns(c, Empty(), turns);
    RunsSerially(c, turns);
    RunIsOrderly(c, turns);
    OrderIsARun(c, o, s.done, e);
    RunRefines(c.wf(e), e, o, ActionsOf(o, s.done, e));
  }
}
