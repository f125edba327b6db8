/** The reaper: heartbeats come in, and pending rows without a recent one are reported as failed. */
module Reaper {
  import opened Models
  import opened Tables
  import opened Refinement
  import opened Repository
  import opened Engine

  datatype RowId = RowId(exec: string, id: nat)

  /** A row as the query for timeouts answers with it. */
  datatype TimedOut = TimedOut(exec: string, id: nat, name: string)

  ghost predicate IsRow(v: map<string, Record>, r: TimedOut) {
    r.exec in v && r.id < |v[r.exec].tables.rows| && v[r.exec].tables.rows[r.id].name == r.name
  }

  ghost predicate HasStatusIn(v: map<string, Record>, r: TimedOut, status: RowStatus) {
    r.exec in v && r.id < |v[r.exec].tables.rows| && v[r.exec].tables.rows[r.id].status == status
  }

  /** The reports that a list of timed-out rows amounts to: failures that may be retried. */
  function Reports(timedOut: seq<TimedOut>): seq<Delivery> {
    seq(|timedOut|, i requires 0 <= i < |timedOut| =>
      Result(ResultMessage(timedOut[i].exec, timedOut[i].id, timedOut[i].name, false, false)))
  }

  /** Reporting one row leaves every row in its place, under its name, and other rows in their status. */
  lemma {:induction false} ReportKeepsRows(workflows: map<string, Workflow>, v: map<string, Record>,
      m: ResultMessage, r: TimedOut)
    requires Known(workflows, v, Result(m)) && IsRow(v, r)
    ensures IsRow(Put(v, m.exec, ReplyTo(workflows, v, m).t), r)
    ensures m.exec != r.exec || m.id != r.id ==>
              forall status :: HasStatusIn(v, r, status) ==>
                  HasStatusIn(Put(v, m.exec, ReplyTo(workflows, v, m).t), r, status)
    ensures m.exec == r.exec && m.id == r.id && !m.success && ReplyTo(workflows, v, m).ok ==>
              HasStatusIn(Put(v, m.exec, ReplyTo(workflows, v, m).t), r, RowFailed)
  {
    hide Handle;
    if r.exec == m.exec {
      var wf, t := workflows[v[m.exec].workflowId], v[m.exec].tables;
      HandleKeepsNames(wf, t, CallFor(m), r.id);
      HandleKeepsOthers(wf, t, CallFor(m));
    }
  }

  function Id(r: TimedOut): RowId {
    RowId(r.exec, r.id)
  }

  ghost predicate Lists(timedOut: seq<TimedOut>, k: RowId) {
    exists r :: r in timedOut && Id(r) == k
  }

  ghost predicate IsPendingIn(v: map<string, Record>, k: RowId) {
    k.exec in v && k.id < |v[k.exec].tables.rows| && v[k.exec].tables.rows[k.id].status == RowPending
  }

  ghost predicate IsRowIn(v: map<string, Record>, k: RowId) {
    k.exec in v && k.id < |v[k.exec].tables.rows|
  }

  /** The rows that were inserted are those that have a stamp. */
  ghost predicate Stamped(v: map<string, Record>, lastHeartbeat: map<RowId, int>) {
    forall k :: IsRowIn(v, k) <==> k in lastHeartbeat
  }

  /** A pending row whose last stamp is older than the threshold. */
  ghost predicate IsLate(v: map<string, Record>, lastHeartbeat: map<RowId, int>, threshold: int, k: RowId) {
    IsPendingIn(v, k) && k in lastHeartbeat && lastHeartbeat[k] < threshold
  }

  /** The stamps `stamps`, and `now` for the rows of `e` from `first` on. */
  function StampedFrom(stamps: map<RowId, int>, e: string, first: nat, last: nat, now: int): map<RowId, int> {
    stamps + map i | first <= i < last :: RowId(e, i) := now
  }

  lemma {:induction false} StampOne(stamps: map<RowId, int>, e: string, first: nat, last: nat, now: int)
    requires first <= last
    ensures StampedFrom(stamps, e, first, last + 1, now) ==
              StampedFrom(stamps, e, first, last, now)[RowId(e, last) := now]
    ensures StampedFrom(stamps, e, first, first, now) == stamps
  {
  }

  /** Old stamps stay, and new ones say `now`. */
  ghost predicate StampsExtend(stamps: map<RowId, int>, stamps': map<RowId, int>, now: int) {
    && (forall k | k in stamps :: k in stamps' && stamps'[k] == stamps[k])
    && (forall k | k in stamps' && k !in stamps :: stamps'[k] == now)
  }

  lemma {:induction false} NoneListed()
    ensures forall k :: !Lists([], k)
  {
  }

  lemma {:induction false} OneMoreListed(timedOut: seq<TimedOut>, r: TimedOut)
    ensures forall k :: Lists(timedOut + [r], k) <==> Lists(timedOut, k) || k == Id(r)
    ensures forall x | x in timedOut :: Lists(timedOut, Id(x))
  {
  }

  /** A report inserts rows of its own execution only, so stamping these leaves every row stamped. */
  lemma {:induction false} StampsKept(v: map<string, Record>, e: string, t: Tables, stamps: map<RowId, int>, now: int)
    requires e in v && Stamped(v, stamps) && |v[e].tables.rows| <= |t.rows|
    ensures Stamped(Put(v, e, t), StampedFrom(stamps, e, |v[e].tables.rows|, |t.rows|, now))
    ensures StampsExtend(stamps, StampedFrom(stamps, e, |v[e].tables.rows|, |t.rows|, now), now)
  {
    var v', stamps' := Put(v, e, t), StampedFrom(stamps, e, |v[e].tables.rows|, |t.rows|, now);
    forall k ensures IsRowIn(v', k) <==> k in stamps' {
      assert IsRowIn(v, k) <==> k in stamps;
    }
    forall k | k in stamps ensures k in stamps' && stamps'[k] == stamps[k] {
      assert IsRowIn(v, k);
    }
  }

  class Reaper {
    const engine: Engine
    /** The column `last_heartbeat_at`. */
    var lastHeartbeat: map<RowId, int>

    constructor (engine: Engine, column: map<RowId, int>)
      requires engine.Valid() && Stamped(engine.repo.View(), column)
      ensures this.engine == engine && lastHeartbeat == column && AllStamped()
    {
      this.engine, lastHeartbeat := engine, column;
    }

    ghost predicate AllStamped()
      requires engine.Valid()
      reads this, engine, engine.repo
    {
      Stamped(engine.repo.View(), lastHeartbeat)
    }

    /** Inserting a row stamps it, too: the rows of `e` from `first` on. */
    method StampInserted(e: string, first: nat, now: int)
      requires engine.Valid() && e in engine.repo.executions && first <= |engine.repo.Slice(e).rows|
      modifies this
      ensures lastHeartbeat == StampedFrom(old(lastHeartbeat), e, first, |engine.repo.Slice(e).rows|, now)
    {
      hide ExecutionRepo.Valid, ExecutionRepo.View, StampedFrom;
      ghost var stamps := lastHeartbeat;
      var last := |engine.repo.activities[e]|;
      StampOne(stamps, e, first, first, now);
      for i := first to last
        invariant lastHeartbeat == StampedFrom(stamps, e, first, i, now)
      {
        StampOne(stamps, e, first, i, now);
        lastHeartbeat := lastHeartbeat[RowId(e, i) := now];
      }
    }

    /** Only pending rows take heartbeats. */
    method RecordHeartbeat(e: string, id: nat, now: int) returns (ok: bool)
      requires engine.Valid()
      modifies this
      ensures ok <==> IsPendingIn(engine.repo.View(), RowId(e, id))
      ensures ok ==> engine.repo.View()[e].tables.rows[id].status == RowPending
      ensures lastHeartbeat == if ok then old(lastHeartbeat)[RowId(e, id) := now] else old(lastHeartbeat)
      ensures old(AllStamped()) ==> AllStamped()
    {
      hide ExecutionRepo.Valid, ExecutionRepo.View;
      var act := engine.repo.GetActivityExecution(e, id);
      ok := act.Some? && act.value.status == RowPending;
      if ok {
        lastHeartbeat := lastHeartbeat[RowId(e, id) := now];
      }
    }

    /** The query: exactly the pending rows whose last stamp is older than the threshold, each once. */
    method QueryTimeouts(threshold: int) returns (timedOut: seq<TimedOut>)
      requires engine.Valid() && AllStamped()
      ensures forall r | r in timedOut :: IsRow(engine.repo.View(), r)
      ensures forall k :: Lists(timedOut, k) <==> IsLate(engine.repo.View(), lastHeartbeat, threshold, k)
      ensures forall k | IsPendingIn(engine.repo.View(), k) ::
                k in lastHeartbeat && (Lists(timedOut, k) <==> lastHeartbeat[k] < threshold)
      ensures forall r | r in timedOut :: HasStatusIn(engine.repo.View(), r, RowPending)
      ensures forall i, j | 0 <= i < j < |timedOut| :: Id(timedOut[i]) != Id(timedOut[j])
    {
      hide ExecutionRepo.Valid, ExecutionRepo.View, Lists;
      timedOut := [];
      NoneListed();
      var left := lastHeartbeat.Keys;
      while left != {}
        invariant left <= lastHeartbeat.Keys
        invariant forall r | r in timedOut :: IsRow(engine.repo.View(), r)
        invariant forall r | r in timedOut :: HasStatusIn(engine.repo.View(), r, RowPending)
        invariant forall k :: Lists(timedOut, k) <==>
                  k !in left && IsLate(engine.repo.View(), lastHeartbeat, threshold, k)
        invariant forall i, j | 0 <= i < j < |timedOut| :: Id(timedOut[i]) != Id(timedOut[j])
        decreases left
      {
        var k :| k in left;
        left := left - {k};
        var act := engine.repo.GetActivityExecution(k.exec, k.id);
        if act.Some? && act.value.status == RowPending && lastHeartbeat[k] < threshold {
          var r := TimedOut(k.exec, k.id, act.value.name);
          OneMoreListed(timedOut, r);
          timedOut := timedOut + [r];
        }
      }
      forall k | IsPendingIn(engine.repo.View(), k) ensures k in lastHeartbeat {
        assert IsRowIn(engine.repo.View(), k);
      }
    }

    /**
     * Reports every row that has been silent for longer than `timeout` as failed, one after the other; none if another
     * instance holds the reaper's lock, or the query fails. A row whose report came through without an error is failed
     * when it is done; rows that reports launch are stamped, and every row keeps a stamp.
     */
    method ReapTimeouts(now: int, timeout: int, acquired: bool, queryFails: bool)
      returns (ghost timedOut: seq<TimedOut>, reported: seq<bool>)
      requires engine.Valid() && engine.repo.locked == {} && AllStamped()
      modifies engine.repo, this
      ensures engine.Valid() && AllStamped() && |reported| == |timedOut|
      ensures StampsExtend(old(lastHeartbeat), lastHeartbeat, now)
      ensures forall k | acquired && !queryFails && IsPendingIn(old(engine.repo.View()), k) ::
                k in old(lastHeartbeat) && (Lists(timedOut, k) <==> old(lastHeartbeat)[k] + timeout < now)
      ensures forall k | Lists(timedOut, k) :: acquired && !queryFails && IsPendingIn(old(engine.repo.View()), k)
      ensures engine.repo.View() == Consume(engine.workflows, old(engine.repo.View()), Reports(timedOut))
      ensures forall i | 0 <= i < |reported| && reported[i] :: HasStatusIn(engine.repo.View(), timedOut[i], RowFailed)
    {
      hide ExecutionRepo.Valid, ExecutionRepo.View, Consume, Put, IsRow, HasStatusIn, Known, ReplyTo, Lists, IsLate,
          Stamped, StampsExtend;
      ghost var v, stamps := engine.repo.View(), lastHeartbeat;
      NoneListed();
      var rows: seq<TimedOut> := [];
      if acquired && !queryFails {
        rows := QueryTimeouts(now - timeout);
        LateArePending(v, lastHeartbeat, now - timeout);
      }
      timedOut, reported := rows, [];
      ConsumeNothing(engine.workflows, v);
      ExtendsItself(stamps, now);
      for i := 0 to |rows|
        invariant engine.Valid() && engine.repo.locked == {} && |reported| == i
        invariant Stamped(engine.repo.View(), lastHeartbeat) && StampsExtend(stamps, lastHeartbeat, now)
        invariant engine.repo.View() == Consume(engine.workflows, v, Reports(rows)[..i])
        invariant forall r | r in rows :: IsRow(engine.repo.View(), r)
        invariant forall j | 0 <= j < i && reported[j] :: HasStatusIn(engine.repo.View(), rows[j], RowFailed)
      {
        ConsumeStep(engine.workflows, v, Reports(rows), i);
        var r := rows[i];
        ghost var before, marks := engine.repo.View(), lastHeartbeat;
        IsKnown(engine.workflows, before, r);
        var ok := Report(r, now);
        ExtendsOn(stamps, marks, lastHeartbeat, now);
        forall x | x in rows ensures IsRow(engine.repo.View(), x) {
          ReportKeepsRows(engine.workflows, before, Reports(rows)[i].msg, x);
        }
        forall j | 0 <= j <= i && (reported + [ok])[j] ensures HasStatusIn(engine.repo.View(), rows[j], RowFailed) {
          ReportKeepsRows(engine.workflows, before, Reports(rows)[i].msg, rows[j]);
        }
        reported := reported + [ok];
      }
      assert Reports(rows)[..|rows|] == Reports(rows);
    }

    method Report(r: TimedOut, now: int) returns (ok: bool)
      requires engine.Valid() && engine.repo.locked == {} && IsRow(engine.repo.View(), r) && AllStamped()
      modifies engine.repo, this
      ensures engine.Valid() && engine.repo.locked == {} && AllStamped()
      ensures StampsExtend(old(lastHeartbeat), lastHeartbeat, now)
      ensures var v := old(engine.repo.View());
              var m := ResultMessage(r.exec, r.id, r.name, false, false);
              Known(engine.workflows, v, Result(m)) && ok == ReplyTo(engine.workflows, v, m).ok
              && engine.repo.View() == Put(v, r.exec, ReplyTo(engine.workflows, v, m).t)
    {
      hide ExecutionRepo.Valid, ExecutionRepo.View, Handle, StampedFrom, Stamped;
      ghost var v, stamps, t := engine.repo.View(), lastHeartbeat, engine.repo.Slice(r.exec);
      var first := |engine.repo.activities[r.exec]|;
      HandleAddsRows(engine.workflows[v[r.exec].workflowId], t, ReportFailure(r.id, false));
      ok := engine.ReportActivityFailure(r.id, r.exec, r.name, false);
      StampsKept(v, r.exec, engine.repo.Slice(r.exec), stamps, now);
      StampInserted(r.exec, first, now);
    }
  }

  lemma {:induction false} LateArePending(v: map<string, Record>, stamps: map<RowId, int>, threshold: int)
    ensures forall k | IsLate(v, stamps, threshold, k) :: IsPendingIn(v, k)
  {
  }

  /** A timeout is a failure of its own row that may be retried. */
  lemma {:induction false} TimeoutsMayBeRetried(timedOut: seq<TimedOut>, i: nat)
    requires i < |timedOut|
    ensures |Reports(timedOut)| == |timedOut| && Reports(timedOut)[i].Result?
    ensures var m := Reports(timedOut)[i].msg;
            && m.exec == timedOut[i].exec && m.name == timedOut[i].name
            && CallFor(m) == ReportFailure(timedOut[i].id, false)
  {
  }

  lemma {:induction false} HandleAddsRows(wf: Workflow, t: Tables, call: Call)
    ensures |t.rows| <= |Handle(wf, t, call).t.rows|
  {
    HandleKeepsOthers(wf, t, call);
  }

  lemma {:induction false} ExtendsItself(stamps: map<RowId, int>, now: int)
    ensures StampsExtend(stamps, stamps, now)
  {
  }

  lemma {:induction false} ExtendsOn(a: map<RowId, int>, b: map<RowId, int>, c: map<RowId, int>, now: int)
    requires StampsExtend(a, b, now) && StampsExtend(b, c, now)
    ensures StampsExtend(a, c, now)
  {
  }

  lemma {:induction false} IsKnown(workflows: map<string, Workflow>, v: map<string, Record>, r: TimedOut)
    requires IsRow(v, r) && forall e | e in v :: v[e].workflowId in workflows
    ensures Known(workflows, v, Result(ResultMessage(r.exec, r.id, r.name, false, false)))
  {
  }
}
