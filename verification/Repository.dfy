/** The tables as `ExecutionRepo` keeps and updates them, one transaction per method. */
module Repository {
  import opened Models
  import opened Keys
  import opened Backoff
  import opened Tables

  /** The last two number what the source stamps with times and random ids: completions, and messages sent. */
  datatype ExecutionRow = ExecutionRow(
    workflowId: string,
    status: ExecutionStatus,
    current: string,
    completions: nat,
    sent: nat)

  /** The length of the ids that `uuid.NewString` makes. */
  const ID_LENGTH := 36

  /** The unique index over the keys of all rows. */
  ghost predicate IndexOf(keys: set<string>, activities: map<string, seq<ActivityRow>>) {
    && (forall e, i | e in activities && 0 <= i < |activities[e]| :: activities[e][i].key in keys)
    && (forall k | k in keys :: exists e :: e in activities && KeyTaken(activities[e], k))
  }

  /** What waits in the outbox was written to it, and waits there once. */
  ghost predicate Waiting(outbox: seq<OutboxMessage>, written: map<string, seq<OutboxMessage>>) {
    && (forall e, n | e in written && 0 <= n < |written[e]| :: written[e][n].id == n && written[e][n].task.exec == e)
    && (forall m | m in outbox :: WasWritten(m, written))
    && Distinct(outbox)
  }

  ghost predicate Distinct(outbox: seq<OutboxMessage>) {
    forall i, j | 0 <= i < j < |outbox| :: outbox[i] != outbox[j]
  }

  ghost predicate WasWritten(m: OutboxMessage, written: map<string, seq<OutboxMessage>>) {
    m.task.exec in written && m.id < |written[m.task.exec]| && written[m.task.exec][m.id] == m
  }

  /** Rows carry the keys of their execution, and times of their clock. */
  ghost predicate RowsInOrder(e: string, rows: seq<ActivityRow>, completions: nat) {
    && |e| == ID_LENGTH
    && (forall i | 0 <= i < |rows| :: rows[i].key == Key(e, rows[i].name, rows[i].attempt))
    && (forall i, j | 0 <= i < j < |rows| :: rows[i].key != rows[j].key)
    && Timed(rows)
    && (forall i | 0 <= i < |rows| && rows[i].completedAt.Some? :: rows[i].completedAt.value < completions)
  }

  lemma {:induction false} IndexSeesOwnKeysOnly(keys: set<string>, activities: map<string, seq<ActivityRow>>,
                                                e: string, name: string, attempt: nat)
    requires IndexOf(keys, activities) && e in activities
    requires forall x | x in activities :: exists n :: RowsInOrder(x, activities[x], n)
    ensures Key(e, name, attempt) in keys <==> KeyTaken(activities[e], Key(e, name, attempt))
  {
    var key := Key(e, name, attempt);
    if key in keys {
      var x :| x in activities && KeyTaken(activities[x], key);
      var i :| 0 <= i < |activities[x]| && activities[x][i].key == key;
      var n :| RowsInOrder(x, activities[x], n);
      KeyInjective(e, name, attempt, x, activities[x][i].name, activities[x][i].attempt);
    }
  }

  lemma {:induction false} IndexGrows(keys: set<string>, activities: map<string, seq<ActivityRow>>, e: string,
      r: ActivityRow)
    requires IndexOf(keys, activities) && e in activities
    ensures IndexOf(keys + {r.key}, activities[e := activities[e] + [r]])
  {
    var activities' := activities[e := activities[e] + [r]];
    forall k | k in keys + {r.key} ensures exists x :: x in activities' && KeyTaken(activities'[x], k) {
      if k == r.key {
        assert activities'[e][|activities[e]|].key == k;
        assert KeyTaken(activities'[e], k);
      } else {
        var x :| x in activities && KeyTaken(activities[x], k);
        var i :| 0 <= i < |activities[x]| && activities[x][i].key == k;
        assert activities'[x][i].key == k;
        assert KeyTaken(activities'[x], k);
      }
    }
  }

  lemma {:induction false} IndexStays(keys: set<string>, activities: map<string, seq<ActivityRow>>, e: string,
      id: nat, r: ActivityRow)
    requires IndexOf(keys, activities) && e in activities && id < |activities[e]| && r.key == activities[e][id].key
    ensures IndexOf(keys, activities[e := activities[e][id := r]])
  {
    var activities' := activities[e := activities[e][id := r]];
    forall k | k in keys ensures exists x :: x in activities' && KeyTaken(activities'[x], k) {
      var x :| x in activities && KeyTaken(activities[x], k);
      var i :| 0 <= i < |activities[x]| && activities[x][i].key == k;
      assert activities'[x][i].key == k;
      assert KeyTaken(activities'[x], k);
    }
  }

  lemma {:induction false} WaitingGrows(outbox: seq<OutboxMessage>, written: map<string, seq<OutboxMessage>>,
      m: OutboxMessage)
    requires Waiting(outbox, written) && m.task.exec in written && m.id == |written[m.task.exec]|
    ensures Waiting(outbox + [m], written[m.task.exec := written[m.task.exec] + [m]])
  {
    var e := m.task.exec;
    var written' := written[e := written[e] + [m]];
    forall x | x in outbox + [m] ensures WasWritten(x, written') {
      if x in outbox { assert WasWritten(x, written); }
    }
    forall i, j | 0 <= i < j < |outbox + [m]| ensures (outbox + [m])[i] != (outbox + [m])[j] {
      assert WasWritten(outbox[i], written);
    }
    assert WasWritten(m, written');
  }

  lemma {:induction false} RowsGrow(e: string, rows: seq<ActivityRow>, completions: nat, r: ActivityRow)
    requires RowsInOrder(e, rows, completions) && !KeyTaken(rows, r.key)
    requires r.key == Key(e, r.name, r.attempt) && r.status == RowPending && r.completedAt.None?
    ensures RowsInOrder(e, rows + [r], completions)
  {
  }

  ghost function SliceOf(e: string, x: ExecutionRow, rows: seq<ActivityRow>, events: seq<Event>,
      written: seq<OutboxMessage>): (t: Tables)
    ensures t.exec == e && t.rows == rows
  {
    Tables(e, x.status, x.current, rows, x.completions, events, written, x.sent)
  }

  /** An execution, and the definition it runs. */
  datatype Record = Record(workflowId: string, tables: Tables)

  /** The tables hold together: same executions everywhere, rows in order, messages counted. */
  ghost predicate Linked(executions: map<string, ExecutionRow>, activities: map<string, seq<ActivityRow>>,
                         events: map<string, seq<Event>>, written: map<string, seq<OutboxMessage>>) {
    && executions.Keys == activities.Keys == events.Keys == written.Keys
    && (forall e | e in executions :: RowsInOrder(e, activities[e], executions[e].completions))
    && (forall e | e in executions :: executions[e].sent == |written[e]|)
  }

  /** The four tables, joined per execution. */
  ghost function ViewOf(executions: map<string, ExecutionRow>, activities: map<string, seq<ActivityRow>>,
                        events: map<string, seq<Event>>, written: map<string, seq<OutboxMessage>>): map<string, Record>
    requires Linked(executions, activities, events, written)
  {
    map e | e in executions ::
      Record(executions[e].workflowId, SliceOf(e, executions[e], activities[e], events[e], written[e]))
  }

  ghost function Put(v: map<string, Record>, e: string, t: Tables): map<string, Record>
    requires e in v
  {
    v[e := v[e].(tables := t)]
  }

  lemma {:induction false} PutAgain(v: map<string, Record>, e: string, t: Tables, t': Tables)
    requires e in v
    ensures e in Put(v, e, t) && Put(v, e, t)[e].tables == t
    ensures Put(Put(v, e, t), e, t') == Put(v, e, t')
    ensures Put(v, e, t).Keys == v.Keys && forall x | x in v :: Put(v, e, t)[x].workflowId == v[x].workflowId
  {
  }

  lemma {:induction false} PutFresh(v: map<string, Record>, e: string, workflowId: string, t: Tables, t': Tables)
    ensures var v1 := v[e := Record(workflowId, t)];
            e in v1 && v1[e].tables == t && Put(v1, e, t') == v[e := Record(workflowId, t')]
  {
  }

  /** Writing to the tables of one execution, new or old, leaves them linked if its own are in order. */
  lemma {:induction false} LinkedAfter(executions: map<string, ExecutionRow>, activities: map<string, seq<ActivityRow>>,
                                       events: map<string, seq<Event>>, written: map<string, seq<OutboxMessage>>,
                                       e: string, x: ExecutionRow, rows: seq<ActivityRow>, log: seq<Event>,
                                       sent: seq<OutboxMessage>)
    requires Linked(executions, activities, events, written)
    requires RowsInOrder(e, rows, x.completions) && x.sent == |sent|
    ensures Linked(executions[e := x], activities[e := rows], events[e := log], written[e := sent])
    ensures ViewOf(executions[e := x], activities[e := rows], events[e := log], written[e := sent]) ==
            ViewOf(executions, activities, events, written)[e := Record(x.workflowId, SliceOf(e, x, rows, log, sent))]
    ensures e in executions ==>
              && executions[e := executions[e]] == executions && activities[e := activities[e]] == activities
                                && events[e := events[e]] == events && written[e := written[e]] == written
  {
    hide RowsInOrder;
  }

  /** Empty tables with the row, the event and the message of a first activity. */
  ghost function FirstInserted(t: Tables, name: string): Tables {
    var key := Key(t.exec, name, 1);
    t.(rows := t.rows + [ActivityRow(name, 1, RowPending, key, None, false)],
       events := t.events + [ActivityScheduled(name, None, false)],
       outbox := t.outbox + [OutboxMessage(t.sent, name, 0, Task(t.exec, 0, name, key))],
       sent := t.sent + 1)
  }

  /** The messages of `t'` that `t` does not have yet. */
  ghost function NewMessages(t: Tables, t': Tables): seq<OutboxMessage> {
    if |t.outbox| <= |t'.outbox| then t'.outbox[|t.outbox|..] else []
  }

  /** A row is settled at time `now`: nothing that identifies it changes, and its time is new. */
  lemma {:induction false} RowsSettle(e: string, rows: seq<ActivityRow>, completions: nat, id: nat, r: ActivityRow,
      now: nat)
    requires RowsInOrder(e, rows, completions) && id < |rows| && completions <= now
    requires r.name == rows[id].name && r.attempt == rows[id].attempt && r.key == rows[id].key
    requires r.completedAt == rows[id].completedAt || (r.completedAt == Some(completions) && completions < now)
    requires r.status == RowCompleted ==> r.completedAt.Some?
    ensures RowsInOrder(e, rows[id := r], now)
  {
  }

  /** The outbox without one message. */
  function Remove(outbox: seq<OutboxMessage>, m: OutboxMessage): (s: seq<OutboxMessage>)
    ensures forall x :: x in s <==> x in outbox && x != m
    ensures |s| <= |outbox| && (m !in outbox ==> s == outbox)
  {
    if outbox == [] then []
    else
      var s := Remove(outbox[..|outbox| - 1], m);
      assert outbox == outbox[..|outbox| - 1] + [outbox[|outbox| - 1]];
      if outbox[|outbox| - 1] == m then s else s + [outbox[|outbox| - 1]]
  }

  lemma {:induction false} RemoveKeepsDistinct(outbox: seq<OutboxMessage>, m: OutboxMessage)
    requires Distinct(outbox)
    ensures var s := Remove(outbox, m);
            && Distinct(s)
            && |s| == |outbox| - if m in outbox then 1 else 0
  {
    if outbox != [] {
      var init, last := outbox[..|outbox| - 1], outbox[|outbox| - 1];
      RemoveKeepsDistinct(init, m);
      assert outbox == init + [last];
      var s := Remove(init, m);
      forall i | 0 <= i < |s| ensures s[i] != last { assert s[i] in s && s[i] in init; }
    }
  }

  lemma {:induction false} RemoveKeepsWaiting(outbox: seq<OutboxMessage>, written: map<string, seq<OutboxMessage>>,
      m: OutboxMessage)
    requires Waiting(outbox, written)
    ensures Waiting(Remove(outbox, m), written)
  {
    RemoveKeepsDistinct(outbox, m);
  }

  lemma {:induction false} NoRowsInOrder(e: string)
    requires |e| == ID_LENGTH
    ensures RowsInOrder(e, [], 0)
  {
  }

  lemma {:induction false} NewExecutionIsIndexed(keys: set<string>, activities: map<string, seq<ActivityRow>>,
      e: string)
    requires IndexOf(keys, activities) && e !in activities
    ensures IndexOf(keys, activities[e := []])
  {
    var activities' := activities[e := []];
    forall k | k in keys ensures exists x :: x in activities' && KeyTaken(activities'[x], k) {
      var x :| x in activities && KeyTaken(activities[x], k);
      assert activities'[x] == activities[x];
    }
  }

  lemma {:induction false} NewExecutionWaits(outbox: seq<OutboxMessage>, written: map<string, seq<OutboxMessage>>,
      e: string)
    requires Waiting(outbox, written) && e !in written
    ensures Waiting(outbox, written[e := []])
  {
  }

  class ExecutionRepo {
    var executions: map<string, ExecutionRow>
    var activities: map<string, seq<ActivityRow>>
    var events: map<string, seq<Event>>
    /** The unique index on `idempotency_key`. */
    var keys: set<string>
    var outbox: seq<OutboxMessage>
    /** Advisory locks held. */
    var locked: set<int>
    const lockKey: string -> int
    /** Every message ever written, per execution. */
    ghost var written: map<string, seq<OutboxMessage>>

    ghost predicate Valid()
      reads this`executions, this`activities, this`events, this`keys, this`outbox, this`written
    {
      && Linked(executions, activities, events, written)
      && IndexOf(keys, activities)
      && Waiting(outbox, written)
    }

    /** All executions. */
    ghost function View(): (v: map<string, Record>)
      requires Valid()
      reads this`executions, this`activities, this`events, this`keys, this`outbox, this`written
      ensures v.Keys == executions.Keys
    {
      ViewOf(executions, activities, events, written)
    }

    /** The tables of one execution. */
    ghost function Slice(e: string): (t: Tables)
      requires Valid() && e in executions
      reads this`executions, this`activities, this`events, this`keys, this`outbox, this`written
      ensures t.exec == e && e in activities && t.rows == activities[e]
    {
      View()[e].tables
    }

    /** The tables of `e` are now `t`; nothing else has changed. */
    twostate predicate Leaves(e: string, t: Tables)
      reads this`executions, this`activities, this`events, this`keys, this`outbox, this`written
    {
      && old(Valid()) && Valid() && e in old(executions)
      && View() == Put(old(View()), e, t)
    }

    /** There is one more execution; nothing else has changed. */
    twostate predicate Adds(e: string, workflowId: string, t: Tables)
      reads this`executions, this`activities, this`events, this`keys, this`outbox, this`written
    {
      && old(Valid()) && Valid() && e !in old(executions)
      && View() == old(View())[e := Record(workflowId, t)]
    }

    lemma {:induction false} RowsAreTimed(e: string)
      requires Valid() && e in executions
      ensures Timed(Slice(e).rows)
    {
    }

    lemma {:induction false} OutboxIsDistinct()
      requires Valid()
      ensures Distinct(outbox)
    {
    }

    lemma {:induction false} SameIds()
      requires Valid()
      ensures executions.Keys == activities.Keys == events.Keys == written.Keys
    {
    }

    lemma {:induction false} TablesAre(e: string)
      requires Valid() && e in executions
      ensures e in activities && e in events && e in written
      ensures Slice(e) == SliceOf(e, executions[e], activities[e], events[e], written[e])
    {
    }

    lemma {:induction false} InLinked(e: string)
      requires Valid() && e in executions
      ensures e in activities && e in events && e in written
      ensures View()[e] ==
                Record(executions[e].workflowId, SliceOf(e, executions[e], activities[e], events[e], written[e]))
      ensures RowsInOrder(e, activities[e], executions[e].completions) && executions[e].sent == |written[e]|
      ensures forall x | x in activities :: exists n :: RowsInOrder(x, activities[x], n)
    {
    }

    constructor (lockKey: string -> int)
      ensures Valid() && executions == map[] && outbox == [] && locked == {} && this.lockKey == lockKey
    {
      executions, activities, events := map[], map[], map[];
      keys, outbox, locked := {}, [], {};
      this.lockKey := lockKey;
      written := map[];
    }

    /******* Locks *******/

    /** Waits until the lock is free; here the wait is over. */
    method LockWorkflow(e: string)
      requires lockKey(e) !in locked
      modifies this`locked
      ensures locked == old(locked) + {lockKey(e)}
    {
      locked := locked + {lockKey(e)};
    }

    method UnlockWorkflow(e: string)
      modifies this`locked
      ensures locked == old(locked) - {lockKey(e)}
    {
      locked := locked - {lockKey(e)};
    }

    /******* Statements of a transaction *******/

    method UpdateExecution(e: string, status: ExecutionStatus, current: string)
      requires Valid() && e in executions
      modifies this`executions
      ensures Leaves(e, old(Slice(e)).(status := status, current := current))
    {
      hide IndexOf, RowsInOrder, Waiting, Linked, ViewOf;
      InLinked(e);
      var x := executions[e].(status := status, current := current);
      LinkedAfter(executions, activities, events, written, e, x, activities[e], events[e], written[e]);
      executions := executions[e := x];
    }

    /** Inserts a pending row, unless the unique index has its key. */
    method InsertActivity(e: string, name: string, attempt: Attempt) returns (ok: bool)
      requires Valid() && e in executions
      modifies this`activities, this`keys
      ensures ok == !KeyTaken(old(Slice(e)).rows, Key(e, name, attempt))
      ensures var t := old(Slice(e));
              ok ==> Leaves(e,
                  t.(rows := t.rows + [ActivityRow(name, attempt, RowPending, Key(e, name, attempt), None, false)]))
      ensures !ok ==> activities == old(activities) && keys == old(keys)
    {
      hide IndexOf, RowsInOrder, Waiting, KeyTaken, Key, Linked, ViewOf;
      InLinked(e);
      var key := Key(e, name, attempt);
      IndexSeesOwnKeysOnly(keys, activities, e, name, attempt);
      ok := key !in keys;
      if ok {
        var row := ActivityRow(name, attempt, RowPending, key, None, false);
        RowsGrow(e, activities[e], executions[e].completions, row);
        IndexGrows(keys, activities, e, row);
        LinkedAfter(executions, activities, events, written, e,
                    executions[e], activities[e] + [row], events[e], written[e]);
        activities := activities[e := activities[e] + [row]];
        keys := keys + {key};
      }
    }

    method InsertEvent(e: string, event: Event)
      requires Valid() && e in executions
      modifies this`events
      ensures var t := old(Slice(e)); Leaves(e, t.(events := t.events + [event]))
    {
      hide IndexOf, RowsInOrder, Waiting, Linked, ViewOf;
      InLinked(e);
      LinkedAfter(executions, activities, events, written, e,
                  executions[e], activities[e], events[e] + [event], written[e]);
      events := events[e := events[e] + [event]];
    }

    /** Inserts a message, unless its tier does not fit the column. */
    method InsertOutboxMessage(e: string, id: nat, name: string, key: string, tier: int) returns (ok: bool)
      requires Valid() && e in executions
      modifies this`outbox, this`written, this`executions
      ensures ok == FitsInt32(tier)
      ensures var t := old(Slice(e));
              var m := OutboxMessage(t.sent, name, tier, Task(e, id, name, key));
              ok ==> Leaves(e, t.(outbox := t.outbox + [m], sent := t.sent + 1)) && outbox == old(outbox) + [m]
      ensures !ok ==> outbox == old(outbox) && written == old(written) && executions == old(executions)
    {
      hide IndexOf, RowsInOrder, Waiting, Linked, ViewOf;
      InLinked(e);
      ok := FitsInt32(tier);
      if ok {
        var m := OutboxMessage(executions[e].sent, name, tier, Task(e, id, name, key));
        var x := executions[e].(sent := executions[e].sent + 1);
        WaitingGrows(outbox, written, m);
        LinkedAfter(executions, activities, events, written, e, x, activities[e], events[e], written[e] + [m]);
        outbox := outbox + [m];
        written := written[e := written[e] + [m]];
        executions := executions[e := x];
      }
    }

    /** Updates a row; `now` is the clock after it. */
    method UpdateActivity(e: string, id: nat, r: ActivityRow, now: nat)
      requires Valid() && e in executions && id < |activities[e]| && executions[e].completions <= now
      requires r.name == activities[e][id].name && r.attempt == activities[e][id].attempt &&
               r.key == activities[e][id].key
      requires || r.completedAt == activities[e][id].completedAt
               || (r.completedAt == Some(executions[e].completions) && executions[e].completions < now)
      requires r.status == RowCompleted ==> r.completedAt.Some?
      modifies this`activities, this`executions
      ensures var t := old(Slice(e)); Leaves(e, t.(rows := t.rows[id := r], completions := now))
    {
      hide IndexOf, RowsInOrder, Waiting, Linked, ViewOf;
      InLinked(e);
      var x, rows := executions[e].(completions := now), activities[e][id := r];
      RowsSettle(e, activities[e], executions[e].completions, id, r, now);
      IndexStays(keys, activities, e, id, r);
      LinkedAfter(executions, activities, events, written, e, x, rows, events[e], written[e]);
      activities := activities[e := rows];
      executions := executions[e := x];
    }

    method InsertExecution(e: string, workflowId: string, status: ExecutionStatus, current: string)
      requires Valid() && e !in executions && |e| == ID_LENGTH
      modifies this`executions, this`activities, this`events, this`written
      ensures Adds(e, workflowId, Tables(e, status, current, [], 0, [], [], 0))
    {
      hide IndexOf, RowsInOrder, Waiting, Linked, ViewOf;
      var x := ExecutionRow(workflowId, status, current, 0, 0);
      SameIds();
      NewExecutionIsIndexed(keys, activities, e);
      NewExecutionWaits(outbox, written, e);
      NoRowsInOrder(e);
      LinkedAfter(executions, activities, events, written, e, x, [], [], []);
      executions := executions[e := x];
      activities, events, written := activities[e := []], events[e := []], written[e := []];
    }

    /******* Transactions *******/

    /** Rolling back gives the tables back. */
    twostate lemma {:induction false} RolledBack(e: string)
      requires old(Valid()) && e in old(executions)
      requires executions == old(executions) && activities == old(activities) && events == old(events)
      requires keys == old(keys) && outbox == old(outbox) && written == old(written)
      ensures Leaves(e, old(Slice(e))) && NewMessages(old(Slice(e)), old(Slice(e))) == []
    {
      hide IndexOf, RowsInOrder, Waiting;
    }

    /** The statements that the launching transactions share, up to the first that is refused. */
    method InsertLaunch(e: string, status: ExecutionStatus, name: string, attempt: Attempt, event: Event,
        tier: int) returns (ok: bool)
      requires Valid() && e in executions
      modifies this`executions, this`activities, this`keys, this`events, this`outbox, this`written
      ensures var r := Launch(old(Slice(e)), status, name, attempt, event, tier);
              ok == r.ok && (ok ==> Leaves(e, r.t) && outbox == old(outbox) + NewMessages(old(Slice(e)), r.t))
      ensures !ok ==> outbox == old(outbox) && written == old(written)
    {
      hide Valid, View, Put, FitsInt32, KeyTaken, Key;
      ghost var v, t := View(), Slice(e);
      var id, key := |activities[e]|, Key(e, name, attempt);
      UpdateExecution(e, status, name);
      ghost var t1 := t.(status := status, current := name);
      ghost var t2 := t1.(rows := t.rows + [ActivityRow(name, attempt, RowPending, key, None, false)]);
      PutAgain(v, e, t1, t2);
      ok := InsertActivity(e, name, attempt);
      if ok {
        ghost var t3 := t2.(events := t.events + [event]);
        PutAgain(v, e, t2, t3);
        InsertEvent(e, event);
        ghost var t4 := Launch(t, status, name, attempt, event, tier).t;
        PutAgain(v, e, t3, t4);
        ok := InsertOutboxMessage(e, id, name, key, tier);
      }
    }

    method LaunchActivity(e: string, status: ExecutionStatus, name: string, attempt: Attempt, event: Event,
        tier: int) returns (ok: bool)
      requires Valid() && e in executions
      modifies this
      ensures var r := Launch(old(Slice(e)), status, name, attempt, event, tier);
              ok == r.ok && Leaves(e, r.t) && outbox == old(outbox) + NewMessages(old(Slice(e)), r.t)
      ensures locked == old(locked)
    {
      hide Valid, View, Launch;
      var executions0, activities0, events0, keys0 := executions, activities, events, keys;
      ok := InsertLaunch(e, status, name, attempt, event, tier);
      if !ok {
        executions, activities, events, keys := executions0, activities0, events0, keys0;
        RolledBack(e);
        RefusedLaunchIsNothing(old(Slice(e)), status, name, attempt, event, tier);
      }
    }

    method ScheduleNextActivity(e: string, next: string, attempt: Attempt, event: Event, tier: int) returns (ok: bool)
      requires Valid() && e in executions
      modifies this
      ensures var r := Launch(old(Slice(e)), old(Slice(e)).status, next, attempt, event, tier);
              ok == r.ok && Leaves(e, r.t) && outbox == old(outbox) + NewMessages(old(Slice(e)), r.t)
      ensures locked == old(locked)
    {
      ok := LaunchActivity(e, executions[e].status, next, attempt, event, tier);
    }

    method StartCompensating(e: string, next: string, attempt: Attempt, event: Event) returns (ok: bool)
      requires Valid() && e in executions
      modifies this
      ensures var r := Launch(old(Slice(e)), Compensating, next, attempt, event, 0);
              ok == r.ok && Leaves(e, r.t) && outbox == old(outbox) + NewMessages(old(Slice(e)), r.t)
      ensures locked == old(locked)
    {
      ok := LaunchActivity(e, Compensating, next, attempt, event, 0);
    }

    method RetryActivity(e: string, newStatus: ExecutionStatus, next: string, attempt: Attempt, event: Event)
      returns (ok: bool)
      requires Valid() && e in executions
      modifies this
      ensures var r := Launch(old(Slice(e)), newStatus, next, attempt, event, 0);
              ok == r.ok && Leaves(e, r.t) && outbox == old(outbox) + NewMessages(old(Slice(e)), r.t)
      ensures locked == old(locked)
    {
      ok := LaunchActivity(e, newStatus, next, attempt, event, 0);
    }

    method CompleteActivity(e: string, id: nat, event: Event)
      requires Valid() && e in executions && id < |activities[e]|
      modifies this`executions, this`activities, this`events
      ensures var t := old(Slice(e));
              Leaves(e, t.(
                rows := t.rows[id := t.rows[id].(status := RowCompleted, completedAt := Some(t.completions))],
                           completions := t.completions + 1,
                           events := t.events + [event]))
    {
      hide Valid, View;
      TablesAre(e);
      var now := executions[e].completions;
      UpdateActivity(e, id, activities[e][id].(status := RowCompleted, completedAt := Some(now)), now + 1);
      InsertEvent(e, event);
    }

    method FailActivity(e: string, id: nat, event: Event)
      requires Valid() && e in executions && id < |activities[e]|
      modifies this`executions, this`activities, this`events
      ensures var t := old(Slice(e));
              Leaves(e, t.(rows := t.rows[id := t.rows[id].(status := RowFailed)], events := t.events + [event]))
    {
      hide Valid, View;
      TablesAre(e);
      UpdateActivity(e, id, activities[e][id].(status := RowFailed), executions[e].completions);
      InsertEvent(e, event);
    }

    /** A message for the dead-letter queue goes with it; its tier fits. */
    method DeadLetterActivity(e: string, id: nat, name: string, event: Event)
      requires Valid() && e in executions && id < |activities[e]|
      modifies this`executions, this`activities, this`events, this`outbox, this`written
      ensures var t := old(Slice(e));
              Leaves(e, t.(rows := t.rows[id := t.rows[id].(status := RowFailed, deadLettered := true)],
                           events := t.events + [event],
                           outbox := t.outbox + [Message(t, id, name, t.rows[id].key, DLQ_TIER)],
                           sent := t.sent + 1))
      ensures var t := old(Slice(e)); outbox == old(outbox) + [Message(t, id, name, t.rows[id].key, DLQ_TIER)]
    {
      hide Valid, View, Put;
      TablesAre(e);
      ghost var v, t := View(), Slice(e);
      var key := activities[e][id].key;
      ghost var t1 := t.(rows := t.rows[id := t.rows[id].(status := RowFailed, deadLettered := true)]);
      ghost var t2 := t1.(events := t.events + [event]);
      UpdateActivity(e, id, activities[e][id].(status := RowFailed, deadLettered := true), executions[e].completions);
      PutAgain(v, e, t1, t2);
      InsertEvent(e, event);
      ghost var t3 := t2.(outbox := t.outbox + [Message(t, id, name, key, DLQ_TIER)], sent := t.sent + 1);
      PutAgain(v, e, t2, t3);
      var _ := InsertOutboxMessage(e, id, name, key, DLQ_TIER);
    }

    /** The transactions that end an execution. */
    method EndExecution(e: string, status: ExecutionStatus, event: Event)
      requires Valid() && e in executions
      modifies this`executions, this`events
      ensures var t := old(Slice(e)); Leaves(e, t.(status := status, events := t.events + [event]))
    {
      hide Valid, View;
      TablesAre(e);
      UpdateExecution(e, status, executions[e].current);
      InsertEvent(e, event);
    }

    method CompleteExecution(e: string, event: Event)
      requires Valid() && e in executions
      modifies this`executions, this`events
      ensures var t := old(Slice(e)); Leaves(e, t.(status := Completed, events := t.events + [event]))
    {
      EndExecution(e, Completed, event);
    }

    method FailExecution(e: string, event: Event)
      requires Valid() && e in executions
      modifies this`executions, this`events
      ensures var t := old(Slice(e)); Leaves(e, t.(status := Failed, events := t.events + [event]))
    {
      EndExecution(e, Failed, event);
    }

    method CompensatedExecution(e: string, event: Event)
      requires Valid() && e in executions
      modifies this`executions, this`events
      ensures var t := old(Slice(e)); Leaves(e, t.(status := Compensated, events := t.events + [event]))
    {
      EndExecution(e, Compensated, event);
    }

    /** The status changes unless the execution is over; the event is written either way. */
    method CancelExecution(e: string, reason: string)
      requires Valid() && e in executions
      modifies this`executions, this`events
      ensures Leaves(e, Commit(old(Slice(e)), Tx.CancelExecution(reason)).t)
    {
      hide Valid, View;
      TablesAre(e);
      var x := executions[e];
      if x.status != Completed && x.status != Failed && x.status != Cancelled {
        UpdateExecution(e, Cancelled, x.current);
      }
      InsertEvent(e, WorkflowFailed(reason, true));
    }

    method InsertFirst(e: string, name: string)
      requires Valid() && e in executions && Slice(e).rows == []
      modifies this`executions, this`activities, this`keys, this`events, this`outbox, this`written
      ensures Leaves(e, FirstInserted(old(Slice(e)), name))
      ensures outbox == old(outbox) + [OutboxMessage(old(Slice(e)).sent, name, 0, Task(e, 0, name, Key(e, name, 1)))]
    {
      hide Valid, View, Put, Key;
      ghost var v, t := View(), Slice(e);
      var key := Key(e, name, 1);
      ghost var t1 := t.(rows := t.rows + [ActivityRow(name, 1, RowPending, key, None, false)]);
      ghost var t2 := t1.(events := t.events + [ActivityScheduled(name, None, false)]);
      ghost var t3 := FirstInserted(t, name);
      var inserted := InsertActivity(e, name, 1);
      PutAgain(v, e, t1, t2);
      InsertEvent(e, ActivityScheduled(name, None, false));
      PutAgain(v, e, t2, t3);
      var sent := InsertOutboxMessage(e, 0, name, key, 0);
    }

    /** A new execution, with its first activity and the message for it, if it has one. */
    method CreateExecution(e: string, workflowId: string, status: ExecutionStatus, current: string,
        first: Option<string>)
      requires Valid() && e !in executions && |e| == ID_LENGTH
      modifies this
      ensures match first
              case None => Adds(e, workflowId, Tables(e, status, current, [], 0, [WorkflowStarted], [], 0))
              case Some(name) =>
                Adds(e, workflowId, FirstInserted(Tables(e, status, current, [], 0, [WorkflowStarted], [], 0), name))
      ensures locked == old(locked) && outbox == old(outbox) + Slice(e).outbox
    {
      hide Valid, View, Put, Key;
      ghost var v := View();
      ghost var t0 := Tables(e, status, current, [], 0, [], [], 0);
      ghost var t1 := t0.(events := [WorkflowStarted]);
      InsertExecution(e, workflowId, status, current);
      assert t0.events + [WorkflowStarted] == [WorkflowStarted];
      PutFresh(v, e, workflowId, t0, t1);
      InsertEvent(e, WorkflowStarted);
      PutFresh(v, e, workflowId, t1, t1);
      if first.Some? {
        InsertFirst(e, first.value);
        ghost var t2 := FirstInserted(t1, first.value);
        PutFresh(v, e, workflowId, t1, t2);
        PutFresh(v, e, workflowId, t2, t2);
      }
    }

    /******* Reads *******/

    method GetExecution(e: string) returns (x: Option<ExecutionRow>)
      requires Valid()
      ensures x.Some? <==> e in executions
      ensures x.Some? ==> x.value.workflowId == View()[e].workflowId && x.value.status == Slice(e).status
    {
      x := if e in executions then Some(executions[e]) else None;
    }

    method GetActivityExecution(e: string, id: nat) returns (r: Option<ActivityRow>)
      requires Valid()
      ensures r == if e in executions && id < |Slice(e).rows| then Some(Slice(e).rows[id]) else None
    {
      SameIds();
      r := if e in activities && id < |activities[e]| then Some(activities[e][id]) else None;
    }

    /** Answers in some order that the query's `ORDER BY` allows. */
    method ListActivityExecutions(e: string) returns (acts: seq<ActivityRow>)
      requires Valid() && e in executions
      ensures IsListing(Slice(e).rows, acts)
    {
      hide Valid, View, Listing, InsertRow, IsListing;
      TablesAre(e);
      acts := [];
      var rows := activities[e];
      ListingOfNone();
      for i := 0 to |rows|
        invariant acts == Listing(rows[..i])
      {
        ListingStep(rows, i);
        acts := InsertRow(acts, rows[i]);
      }
      assert rows[..|rows|] == rows;
      ListingIsListing(rows);
    }

    /******* The outbox *******/

    method GetPendingOutboxMessages(limit: nat) returns (msgs: seq<OutboxMessage>)
      ensures msgs == outbox[..if limit < |outbox| then limit else |outbox|]
    {
      msgs := [];
      while |msgs| < limit && |msgs| < |outbox|
        invariant |msgs| <= limit && |msgs| <= |outbox| && msgs == outbox[..|msgs|]
        decreases limit - |msgs|
      {
        msgs := msgs + [outbox[|msgs|]];
      }
    }

    method DeleteOutboxMessage(m: OutboxMessage)
      requires Valid()
      modifies this`outbox
      ensures Valid() && outbox == Remove(old(outbox), m) && View() == old(View())
    {
      hide IndexOf, Linked, Waiting;
      RemoveKeepsWaiting(outbox, written, m);
      outbox := Remove(outbox, m);
    }
  }

  lemma {:induction false} RefusedLaunchIsNothing(t: Tables, status: ExecutionStatus, name: string, attempt: Attempt,
      event: Event, tier: int)
    ensures var r := Launch(t, status, name, attempt, event, tier); !r.ok ==> r.t == t
  {
  }

  lemma {:induction false} ListingOfNone()
    ensures Listing([]) == []
  {
  }

  lemma {:induction false} ListingStep(rows: seq<ActivityRow>, i: nat)
    requires i < |rows|
    ensures Listing(rows[..i + 1]) == InsertRow(Listing(rows[..i]), rows[i])
  {
    assert rows[..i + 1][..i] == rows[..i];
  }
}
