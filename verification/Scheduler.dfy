/** The scheduler: polls for due schedules, starts their workflows and moves them on. */
module Scheduler {
  import opened Models
  import opened Arithmetic

  datatype Kind = Once | Delayed | Recurring | Unknown

  datatype ScheduleStatus = Active | Finished | Paused

  /** Times count in one unit; `cron` and `interval` are empty when not given. */
  datatype Schedule = Schedule(
    workflowId: string,
    kind: Kind,
    cron: string,
    interval: string,
    nextRunAt: int,
    status: ScheduleStatus)

  /** What the libraries make of expressions: the next time after a given one, and a duration. `None` is an error. */
  datatype Parsers = Parsers(cronNext: (string, int) -> Option<int>, duration: string -> Option<int>)

  /** The one thing assumed of cron expressions. */
  ghost predicate CronIsLater(p: Parsers) {
    forall c, t {:trigger p.cronNext(c, t)} :: p.cronNext(c, t).Some? ==> p.cronNext(c, t).value > t
  }

  predicate Due(s: Schedule, now: int) {
    s.status == Active && s.nextRunAt <= now
  }

  /** The schedule after a start at `now`. */
  function Advance(p: Parsers, s: Schedule, now: int): Schedule {
    match s.kind
    case Recurring =>
      if s.cron != "" then
        (match p.cronNext(s.cron, now)
         case Some(t) => s.(nextRunAt := t, status := Active)
         case None => s.(status := Finished))
      else if s.interval != "" then
        (match p.duration(s.interval)
         case Some(d) => s.(nextRunAt := now + d, status := Active)
         case None => s.(status := Finished))
      else s.(status := Finished)
    case Unknown => s
    case _ => s.(status := Finished)
  }

  /** Runs every `d` units. */
  predicate Every(p: Parsers, s: Schedule, d: int) {
    s.kind == Recurring && s.cron == "" && s.interval != "" && p.duration(s.interval) == Some(d)
  }

  /******* One poll over the table *******/

  /** One start of a schedule. */
  datatype Started = Started(id: string, at: int)

  class WorkflowRepo {
    var schedules: map<string, Schedule>

    constructor ()
      ensures schedules == map[]
    {
      schedules := map[];
    }

    method CreateSchedule(id: string, s: Schedule) returns (ok: bool)
      modifies this
      ensures ok == (id !in old(schedules)) && schedules == if ok then old(schedules)[id := s] else old(schedules)
    {
      ok := id !in schedules;
      if ok {
        schedules := schedules[id := s];
      }
    }

    /** The due schedules, each once, in some order. */
    method GetDueSchedules(now: int) returns (due: seq<string>)
      ensures forall id :: id in due <==> id in schedules && Due(schedules[id], now)
      ensures forall i, j | 0 <= i < j < |due| :: due[i] != due[j]
    {
      due := [];
      var left := schedules.Keys;
      while left != {}
        invariant left <= schedules.Keys
        invariant forall id :: id in due <==> id in schedules && id !in left && Due(schedules[id], now)
        invariant forall i, j | 0 <= i < j < |due| :: due[i] != due[j]
        decreases left
      {
        var id :| id in left;
        if schedules[id].status == Active && schedules[id].nextRunAt <= now {
          due := due + [id];
        }
        left := left - {id};
      }
    }

    method UpdateScheduleState(id: string, nextRunAt: Option<int>, status: ScheduleStatus, fails: bool)
      modifies this
      ensures schedules ==
              if fails || id !in old(schedules) then old(schedules)
              else
                var s := old(schedules)[id];
                old(schedules)[id :=
                    s.(status := status, nextRunAt := if nextRunAt.Some? then nextRunAt.value else s.nextRunAt)]
    {
      if !fails && id in schedules {
        var s := schedules[id];
        schedules := schedules[id :=
            s.(status := status, nextRunAt := if nextRunAt.Some? then nextRunAt.value else s.nextRunAt)];
      }
    }
  }

  /** What fails in a poll: starts of workflows, and updates of schedules. */
  datatype Faults = Faults(start: string -> bool, update: string -> bool)

  predicate Runs(s: Schedule, id: string, now: int, faults: Faults) {
    Due(s, now) && !faults.start(id)
  }

  /** One schedule after a poll. */
  function Polled(p: Parsers, s: Schedule, id: string, now: int, faults: Faults): Schedule {
    if Runs(s, id, now, faults) && !faults.update(id) then Advance(p, s, now) else s
  }

  lemma {:induction false} OnlyDueAreTouched(p: Parsers, before: map<string, Schedule>, now: int, faults: Faults)
    ensures forall id | id in before && !Due(before[id], now) :: Polled(p, before[id], id, now, faults) == before[id]
    ensures forall id | id in before :: Runs(before[id], id, now, faults) <==> Due(before[id], now) && !faults.start(id)
  {
  }

  class Scheduler {
    const repo: WorkflowRepo
    const parsers: Parsers
    /** Whether this instance holds the leader lock. */
    var leader: bool
    ghost var started: seq<Started>

    constructor (repo: WorkflowRepo, parsers: Parsers)
      ensures this.repo == repo && this.parsers == parsers && !leader && started == []
    {
      this.repo, this.parsers, leader, started := repo, parsers, false, [];
    }

    /** `alive`: the connection that holds the lock answers; `free`: the lock could be taken just now. */
    method TryAcquireLock(alive: bool, free: bool) returns (ok: bool)
      modifies this`leader
      ensures ok == (if old(leader) then alive else free) && leader == ok
    {
      if leader {
        if !alive {
          leader := false;
          return false;
        }
        return true;
      }
      if free {
        leader := true;
        return true;
      }
      return false;
    }

    method ReleaseLock()
      modifies this`leader
      ensures !leader
    {
      if leader {
        leader := false;
      }
    }

    /**
     * A poll at `now`: every due schedule is started once, whatever its backlog, and moved on. Others are not touched,
     * and without the lock, or when the query fails, none is.
     */
    method Poll(now: int, alive: bool, free: bool, queryFails: bool, faults: Faults)
      modifies this`leader, this`started, repo
      ensures leader == if old(leader) then alive else free
      ensures !leader || queryFails ==> repo.schedules == old(repo.schedules) && started == old(started)
      ensures leader && !queryFails ==>
                && repo.schedules.Keys == old(repo.schedules).Keys
                && forall id | id in repo.schedules ::
                     repo.schedules[id] == Polled(parsers, old(repo.schedules)[id], id, now, faults)
      ensures old(started) <= started
      ensures leader && !queryFails ==>
                var new_ := started[|old(started)|..];
                && (forall id, at :: Started(id, at) in new_ <==>
                      at == now && id in old(repo.schedules) && Runs(old(repo.schedules)[id], id, now, faults))
                && (forall i, j | 0 <= i < j < |new_| :: new_[i] != new_[j])
    {
      hide Polled, Due, Runs;
      var ok := TryAcquireLock(alive, free);
      if !ok || queryFails {
        return;
      }
      OnlyDueAreTouched(parsers, repo.schedules, now, faults);
      var due := repo.GetDueSchedules(now);
      ghost var new_ := StartDue(due, now, faults);
      assert started[|old(started)|..] == new_;
    }

    /** Starts the schedules that were due, one after the other. */
    method StartDue(due: seq<string>, now: int, faults: Faults) returns (ghost new_: seq<Started>)
      requires forall id | id in due :: id in repo.schedules && Due(repo.schedules[id], now)
      requires forall i, j | 0 <= i < j < |due| :: due[i] != due[j]
      modifies this`started, repo
      ensures repo.schedules.Keys == old(repo.schedules).Keys
      ensures forall id | id in repo.schedules ::
                repo.schedules[id] ==
                if id in due then Polled(parsers, old(repo.schedules)[id], id, now, faults) else old(repo.schedules)[id]
      ensures started == old(started) + new_
      ensures forall id, at :: Started(id, at) in new_ <==> at == now && id in due && !faults.start(id)
      ensures forall i, j | 0 <= i < j < |new_| :: new_[i] != new_[j]
    {
      hide Polled, Due;
      ghost var before := repo.schedules;
      new_ := [];
      for i := 0 to |due|
        invariant repo.schedules.Keys == before.Keys
        invariant forall id | id in before ::
                    repo.schedules[id] ==
                    if id in due[..i] then Polled(parsers, before[id], id, now, faults) else before[id]
        invariant started == old(started) + new_
        invariant forall id, at :: Started(id, at) in new_ <==> at == now && id in due[..i] && !faults.start(id)
        invariant forall a, b | 0 <= a < b < |new_| :: new_[a] != new_[b]
      {
        var id := due[i];
        assert due[..i + 1] == due[..i] + [id];
        assert id !in due[..i];
        PollOne(id, now, faults);
        new_ := new_ + if faults.start(id) then [] else [Started(id, now)];
      }
      assert due[..|due|] == due;
    }

    /** Starts one due schedule's workflow, and moves the schedule on unless that failed. */
    method PollOne(id: string, now: int, faults: Faults)
      requires id in repo.schedules && Due(repo.schedules[id], now)
      modifies this`started, repo
      ensures repo.schedules == old(repo.schedules)[id := Polled(parsers, old(repo.schedules)[id], id, now, faults)]
      ensures started == old(started) + if faults.start(id) then [] else [Started(id, now)]
    {
      hide Advance;
      if faults.start(id) {
        assert old(repo.schedules)[id := old(repo.schedules)[id]] == old(repo.schedules);
        return;
      }
      started := started + [Started(id, now)];
      AdvanceSchedule(id, now, faults.update(id));
    }

    method AdvanceSchedule(id: string, now: int, fails: bool)
      requires id in repo.schedules
      modifies repo
      ensures var s := old(repo.schedules)[id];
              repo.schedules == old(repo.schedules)[id := if fails then s else Advance(parsers, s, now)]
    {
      var sched := repo.schedules[id];
      if sched.kind == Once || sched.kind == Delayed {
        repo.UpdateScheduleState(id, None, Finished, fails);
        return;
      }
      if sched.kind == Recurring {
        var nextRunAt: int;
        if sched.cron != "" {
          var next := parsers.cronNext(sched.cron, now);
          if next.None? {
            repo.UpdateScheduleState(id, None, Finished, fails);
            return;
          }
          nextRunAt := next.value;
        } else if sched.interval != "" {
          var duration := parsers.duration(sched.interval);
          if duration.None? {
            repo.UpdateScheduleState(id, None, Finished, fails);
            return;
          }
          nextRunAt := now + duration.value;
        } else {
          repo.UpdateScheduleState(id, None, Finished, fails);
          return;
        }
        repo.UpdateScheduleState(id, Some(nextRunAt), Active, fails);
      }
    }
  }

  /******* One schedule over many polls *******/

  /** What happens to a schedule: a poll by the leader, or an operator pausing or resuming it. */
  datatype Happening = Poll(now: int, startFails: bool, updateFails: bool) | Pause | Resume

  function After(p: Parsers, s: Schedule, h: Happening): Schedule {
    match h
    case Poll(now, startFails, updateFails) =>
      Polled(p, s, "", now, Faults(id => startFails, id => updateFails))
    case Pause => s.(status := Paused)
    case Resume => s.(status := Active)
  }

  function AfterAll(p: Parsers, s: Schedule, hs: seq<Happening>): Schedule {
    if hs == [] then s else After(p, AfterAll(p, s, hs[..|hs| - 1]), hs[|hs| - 1])
  }

  /** The times at which a workflow is started. */
  function Starts(p: Parsers, s: Schedule, hs: seq<Happening>): seq<int> {
    if hs == [] then []
    else
      var h := hs[|hs| - 1];
      Starts(p, s, hs[..|hs| - 1]) +
      if h.Poll? && Due(AfterAll(p, s, hs[..|hs| - 1]), h.now) && !h.startFails then [h.now] else []
  }

  /** Time does not run backwards from poll to poll. */
  predicate InTime(hs: seq<Happening>) {
    forall i, j | 0 <= i < j < |hs| && hs[i].Poll? && hs[j].Poll? :: hs[i].now <= hs[j].now
  }

  predicate UpdatesSucceed(hs: seq<Happening>) {
    forall i | 0 <= i < |hs| && hs[i].Poll? :: !hs[i].updateFails
  }

  /** How many starts lie in a window. */
  function CountIn(starts: seq<int>, from: int, to: int): nat {
    if starts == [] then 0
    else
      CountIn(starts[..|starts| - 1], from, to) + if from <= starts[|starts| - 1] <= to then 1 else 0
  }

  predicate Spaced(starts: seq<int>, d: int) {
    forall i | 0 <= i < |starts| - 1 :: starts[i] + d <= starts[i + 1]
  }

  lemma {:induction false} NoneLater(starts: seq<int>, from: int, to: int)
    requires forall i | 0 <= i < |starts| :: starts[i] < from
    ensures CountIn(starts, from, to) == 0
  {
    if starts != [] { NoneLater(starts[..|starts| - 1], from, to); }
  }

  lemma {:induction false} CountNarrower(starts: seq<int>, from: int, to: int, to': int)
    requires to <= to' && forall i | 0 <= i < |starts| :: starts[i] <= to
    ensures CountIn(starts, from, to') == CountIn(starts, from, to)
  {
    if starts != [] { CountNarrower(starts[..|starts| - 1], from, to, to'); }
  }

  lemma {:induction false} LastIsLatest(starts: seq<int>, d: int)
    requires Spaced(starts, d) && d > 0 && starts != []
    ensures forall i | 0 <= i < |starts| - 1 :: starts[i] <= starts[|starts| - 1] - d
  {
    if |starts| > 1 {
      LastIsLatest(starts[..|starts| - 1], d);
      assert starts[..|starts| - 1][|starts| - 2] == starts[|starts| - 2];
      forall i | 0 <= i < |starts| - 1 ensures starts[i] <= starts[|starts| - 1] - d {
        if i < |starts| - 2 { assert starts[..|starts| - 1][i] == starts[i]; }
      }
    }
  }

  /** Starts at least `d` apart: one more of them in a window takes `d` more time. */
  lemma {:induction false} SpacedAreFew(starts: seq<int>, d: int, from: int, to: int)
    requires Spaced(starts, d) && d > 0 && from <= to
    ensures (CountIn(starts, from, to) - 1) * d <= to - from
  {
    if starts != [] {
      var init, last := starts[..|starts| - 1], starts[|starts| - 1];
      LastIsLatest(starts, d);
      if from <= last <= to {
        CountNarrower(init, from, last - d, to);
        if last - d >= from {
          SpacedAreFew(init, d, from, last - d);
          TimesOneMore(CountIn(init, from, last - d) - 1, d);
        } else {
          NoneLater(init, from, to);
        }
      } else {
        SpacedAreFew(init, d, from, to);
      }
    }
  }

  /** An interval schedule keeps its interval, and is next due no sooner than one interval after its last start. */
  lemma {:induction false} IntervalStarts(p: Parsers, s: Schedule, hs: seq<Happening>, d: int)
    requires Every(p, s, d) && d > 0 && InTime(hs) && UpdatesSucceed(hs)
    ensures var s', starts := AfterAll(p, s, hs), Starts(p, s, hs);
            && Every(p, s', d) && Spaced(starts, d)
            && (starts != [] ==> s'.nextRunAt == starts[|starts| - 1] + d)
  {
    hide AfterAll, LastUpdateFailed, Every;
    if hs != [] {
      var init := hs[..|hs| - 1];
      IntervalStarts(p, s, init, d);
      AfterLastStart(p, s, init, d);
      NoneFailed(p, s, init);
      StartsGrow(p, s, hs);
    }
    AfterLastStart(p, s, hs, d);
    NoneFailed(p, s, hs);
  }

  /**
   * Spacing: an interval-d schedule starts at most floor(W/d) + 1 times in any window of length W, whenever it is
   * polled, paused and resumed, and however often starting it fails.
   */
  lemma {:induction false} StartsAreSpaced(p: Parsers, s: Schedule, hs: seq<Happening>, d: int, from: int, window: nat)
    requires Every(p, s, d) && d > 0 && InTime(hs) && UpdatesSucceed(hs)
    ensures Spaced(Starts(p, s, hs), d)
    ensures CountIn(Starts(p, s, hs), from, from + window) <= window / d + 1
  {
    IntervalStarts(p, s, hs, d);
    FewInWindow(Starts(p, s, hs), d, from, window);
  }

  lemma {:induction false} FewInWindow(starts: seq<int>, d: int, from: int, window: nat)
    requires Spaced(starts, d) && d > 0
    ensures CountIn(starts, from, from + window) <= window / d + 1
  {
    hide Spaced, CountIn;
    SpacedAreFew(starts, d, from, from + window);
    DividesInto(CountIn(starts, from, from + window) - 1, d, window);
  }

  function Resumes(hs: seq<Happening>): nat {
    if hs == [] then 0 else Resumes(hs[..|hs| - 1]) + if hs[|hs| - 1].Resume? then 1 else 0
  }

  /** A once or delayed schedule starts at most once, and once more for every time it is resumed. */
  lemma {:induction false} OnceStartsOnce(p: Parsers, s: Schedule, hs: seq<Happening>)
    requires (s.kind == Once || s.kind == Delayed) && UpdatesSucceed(hs)
    ensures AfterAll(p, s, hs).kind == s.kind
    ensures |Starts(p, s, hs)| + (if AfterAll(p, s, hs).status == Active then 1 else 0) <= 1 + Resumes(hs)
  {
    if hs != [] {
      OnceStartsOnce(p, s, hs[..|hs| - 1]);
    }
  }

  /**
   * A schedule started by a poll is not due any more at its time, unless its interval is not positive or its kind
   * unknown.
   */
  lemma {:induction false} NotDueAfterStart(p: Parsers, s: Schedule, now: int)
    requires CronIsLater(p) && Due(s, now)
    ensures Due(Advance(p, s, now), now) <==> s.kind == Unknown || exists d :: Every(p, s, d) && d <= 0
  {
    if s.kind == Recurring && s.cron != "" {
      var next := p.cronNext(s.cron, now);
    } else if s.kind == Recurring && s.interval != "" && p.duration(s.interval).Some? {
      assert Every(p, s, p.duration(s.interval).value);
    }
  }

  /** When updating fails after a start, the schedule is still due, and the next poll starts it again. */
  lemma {:induction false} FailedUpdateStartsAgain(p: Parsers, s: Schedule, now: int, later: int)
    requires Due(s, now) && now <= later
    ensures Starts(p, s, [Poll(now, false, true), Poll(later, false, false)]) == [now, later]
  {
    var hs := [Poll(now, false, true), Poll(later, false, false)];
    var first := [Poll(now, false, true)];
    assert hs[..1] == first && first[..0] == [];
    assert AfterAll(p, s, []) == s && Starts(p, s, []) == [];
    assert AfterAll(p, s, first) == After(p, s, first[0]) == s;
    assert Starts(p, s, first) == [] + [now] == [now];
    assert Starts(p, s, hs) == Starts(p, s, hs[..1]) + [later];
  }

  /******* When a schedule starts again too soon *******/

  /** The last happening was a poll that started the schedule. */
  predicate StartsLast(p: Parsers, s: Schedule, hs: seq<Happening>) {
    && hs != [] && hs[|hs| - 1].Poll? && !hs[|hs| - 1].startFails
    && Due(AfterAll(p, s, hs[..|hs| - 1]), hs[|hs| - 1].now)
  }

  /** The update after the last start failed. */
  predicate LastUpdateFailed(p: Parsers, s: Schedule, hs: seq<Happening>) {
    hs != [] && if StartsLast(p, s, hs) then hs[|hs| - 1].updateFails else LastUpdateFailed(p, s, hs[..|hs| - 1])
  }

  lemma {:induction false} StartsGrow(p: Parsers, s: Schedule, hs: seq<Happening>)
    requires hs != []
    ensures Starts(p, s, hs) ==
            Starts(p, s, hs[..|hs| - 1]) + if StartsLast(p, s, hs) then [hs[|hs| - 1].now] else []
  {
  }

  lemma {:induction false} InTimeBefore(hs: seq<Happening>)
    requires hs != [] && InTime(hs)
    ensures InTime(hs[..|hs| - 1])
  {
  }

  /** No start lies after a poll that is in time. */
  lemma {:induction false} StartsBefore(p: Parsers, s: Schedule, hs: seq<Happening>, h: Happening)
    requires InTime(hs + [h]) && h.Poll?
    ensures forall t | t in Starts(p, s, hs) :: t <= h.now
  {
    if hs != [] {
      var init := hs[..|hs| - 1];
      StartsGrow(p, s, hs);
      assert (hs + [h])[|hs| - 1] == hs[|hs| - 1] && (hs + [h])[|hs|] == h;
      forall i, j | 0 <= i < j < |init + [h]| && (init + [h])[i].Poll? && (init + [h])[j].Poll?
        ensures (init + [h])[i].now <= (init + [h])[j].now
      {
        assert (init + [h])[i] == (hs + [h])[i];
        assert (init + [h])[j] == (hs + [h])[if j == |init| then |hs| else j];
      }
      StartsBefore(p, s, init, h);
    }
  }

  /** After the last start at `t` the schedule is next due one interval later, or still by `t` if its update failed. */
  lemma {:induction false} AfterLastStart(p: Parsers, s: Schedule, hs: seq<Happening>, d: int)
    requires Every(p, s, d)
    ensures var s', starts := AfterAll(p, s, hs), Starts(p, s, hs);
            && Every(p, s', d)
            && (starts != [] ==>
                  if LastUpdateFailed(p, s, hs) then s'.nextRunAt <= starts[|starts| - 1]
                  else s'.nextRunAt == starts[|starts| - 1] + d)
  {
    if hs != [] {
      AfterLastStart(p, s, hs[..|hs| - 1], d);
      StartsGrow(p, s, hs);
    }
  }

  /**
   * The exact condition for a second start within an interval: at a poll sooner than one interval after the last
   * start, the schedule is due if and only if it is active and the update after that start failed.
   */
  lemma {:induction false} EarlyStartExactly(p: Parsers, s: Schedule, hs: seq<Happening>, h: Happening, d: int)
    requires Every(p, s, d) && d > 0 && InTime(hs + [h]) && h.Poll? && Starts(p, s, hs) != []
    requires var starts := Starts(p, s, hs); h.now < starts[|starts| - 1] + d
    ensures Due(AfterAll(p, s, hs), h.now) <==> AfterAll(p, s, hs).status == Active && LastUpdateFailed(p, s, hs)
  {
    hide AfterAll, Starts, LastUpdateFailed;
    AfterLastStart(p, s, hs, d);
    StartsBefore(p, s, hs, h);
    var starts := Starts(p, s, hs);
    assert starts[|starts| - 1] in starts;
  }

  /**
   * What leaves a once or delayed schedule wanting another start: an operator's last word since the last one, or a
   * failed update.
   */
  predicate WantsAnother(p: Parsers, s: Schedule, hs: seq<Happening>) {
    hs != [] &&
    if StartsLast(p, s, hs) then hs[|hs| - 1].updateFails
    else if hs[|hs| - 1].Poll? then WantsAnother(p, s, hs[..|hs| - 1])
    else hs[|hs| - 1].Resume?
  }

  lemma {:induction false} OnceAfterStart(p: Parsers, s: Schedule, hs: seq<Happening>)
    requires s.kind == Once || s.kind == Delayed
    ensures var s', starts := AfterAll(p, s, hs), Starts(p, s, hs);
            && s'.kind == s.kind && s'.nextRunAt == s.nextRunAt
            && (starts != [] ==> s.nextRunAt <= starts[|starts| - 1])
            && (starts != [] ==> (s'.status == Active <==> WantsAnother(p, s, hs)))
  {
    if hs != [] {
      OnceAfterStart(p, s, hs[..|hs| - 1]);
      StartsGrow(p, s, hs);
    }
  }

  /**
   * The same for once and delayed schedules: one that has started is due again at a later poll if and only if it was
   * resumed since, or the update after its last start failed and it was not paused since.
   */
  lemma {:induction false} OnceAgainExactly(p: Parsers, s: Schedule, hs: seq<Happening>, h: Happening)
    requires (s.kind == Once || s.kind == Delayed) && InTime(hs + [h]) && h.Poll? && Starts(p, s, hs) != []
    ensures Due(AfterAll(p, s, hs), h.now) <==> WantsAnother(p, s, hs)
  {
    hide AfterAll, Starts, WantsAnother;
    OnceAfterStart(p, s, hs);
    StartsBefore(p, s, hs, h);
    var starts := Starts(p, s, hs);
    assert starts[|starts| - 1] in starts;
  }

  /******* Exactly when a schedule is due *******/

  /**
   * Whether a schedule is active by what happened to it: an operator's last word, unless a start came later; after a
   * start at `t` it is if `goesOn(t)`.
   */
  predicate StaysActive(p: Parsers, s: Schedule, hs: seq<Happening>, goesOn: int -> bool) {
    if hs == [] then s.status == Active
    else
      var init, h := hs[..|hs| - 1], hs[|hs| - 1];
      match h
      case Pause => false
      case Resume => true
      case Poll(now, _, updateFails) =>
        if StartsLast(p, s, hs) && !updateFails then goesOn(now) else StaysActive(p, s, init, goesOn)
  }

  predicate IsCron(s: Schedule) {
    s.kind == Recurring && s.cron != ""
  }

  /** The cron's next time after the last start has come, or that start was the last one it was to be moved on after. */
  predicate CronTimeHasCome(p: Parsers, s: Schedule, hs: seq<Happening>, now: int) {
    var starts := Starts(p, s, hs);
    if starts == [] then s.nextRunAt <= now
    else
      || LastUpdateFailed(p, s, hs)
      || match p.cronNext(s.cron, starts[|starts| - 1])
         case Some(t) => t <= now
         case None => true
  }

  lemma {:induction false} CronAfter(p: Parsers, s: Schedule, hs: seq<Happening>)
    requires IsCron(s)
    ensures var s', starts := AfterAll(p, s, hs), Starts(p, s, hs);
            && s'.kind == s.kind && s'.cron == s.cron
            && (s'.status == Active <==> StaysActive(p, s, hs, t => p.cronNext(s.cron, t).Some?))
            && if starts == [] then s'.nextRunAt == s.nextRunAt
               else
                 var last := starts[|starts| - 1];
                 if LastUpdateFailed(p, s, hs) || p.cronNext(s.cron, last).None? then s'.nextRunAt <= last
                 else s'.nextRunAt == p.cronNext(s.cron, last).value
  {
    if hs != [] {
      CronAfter(p, s, hs[..|hs| - 1]);
      StartsGrow(p, s, hs);
    }
  }

  /**
   * The exact condition for cron schedules, after any history: at a poll it is due if and only if it is active and the
   * cron's next time after its last start has come; or it was never to be moved on, the update after that start having
   * failed, or the operator having resumed what the cron had finished.
   */
  lemma {:induction false} CronDueExactly(p: Parsers, s: Schedule, hs: seq<Happening>, h: Happening)
    requires IsCron(s) && InTime(hs + [h]) && h.Poll?
    ensures Due(AfterAll(p, s, hs), h.now) <==>
              StaysActive(p, s, hs, t => p.cronNext(s.cron, t).Some?) && CronTimeHasCome(p, s, hs, h.now)
  {
    hide AfterAll, Starts, LastUpdateFailed, StaysActive;
    CronAfter(p, s, hs);
    StartsBefore(p, s, hs, h);
    var starts := Starts(p, s, hs);
    if starts != [] { assert starts[|starts| - 1] in starts; }
  }

  /** So a poll starts it if and only if it is due then and starting succeeds; nothing else starts it. */
  lemma {:induction false} CronStartsExactly(p: Parsers, s: Schedule, hs: seq<Happening>, h: Happening)
    requires IsCron(s) && InTime(hs + [h])
    ensures var starts :=
              h.Poll? && !h.startFails && StaysActive(p, s, hs, t => p.cronNext(s.cron, t).Some?)
              && CronTimeHasCome(p, s, hs, h.now);
            Starts(p, s, hs + [h]) == Starts(p, s, hs) + if starts then [h.now] else []
  {
    hide Due, AfterAll, StaysActive, CronTimeHasCome;
    assert (hs + [h])[..|hs|] == hs;
    if h.Poll? { CronDueExactly(p, s, hs, h); }
  }

  /** Every start lies at or after the cron's next time following the start before, if updates succeed. */
  lemma {:induction false} CronStartsApart(p: Parsers, s: Schedule, hs: seq<Happening>)
    requires IsCron(s) && UpdatesSucceed(hs)
    ensures var starts := Starts(p, s, hs);
            forall i | 0 <= i < |starts| - 1 ::
              match p.cronNext(s.cron, starts[i])
              case Some(t) => t <= starts[i + 1]
              case None => true
  {
    hide AfterAll, StaysActive, LastUpdateFailed;
    if hs != [] {
      var init := hs[..|hs| - 1];
      CronStartsApart(p, s, init);
      CronAfter(p, s, init);
      NoneFailed(p, s, init);
      StartsGrow(p, s, hs);
    }
  }

  lemma {:induction false} NoneFailed(p: Parsers, s: Schedule, hs: seq<Happening>)
    requires UpdatesSucceed(hs)
    ensures !LastUpdateFailed(p, s, hs)
  {
    if hs != [] { NoneFailed(p, s, hs[..|hs| - 1]); }
  }

  /** The interval since the last start is over. */
  predicate IntervalIsOver(p: Parsers, s: Schedule, hs: seq<Happening>, d: int, now: int) {
    var starts := Starts(p, s, hs);
    if starts == [] then s.nextRunAt <= now
    else LastUpdateFailed(p, s, hs) || starts[|starts| - 1] + d <= now
  }

  lemma {:induction false} IntervalAfter(p: Parsers, s: Schedule, hs: seq<Happening>, d: int)
    requires Every(p, s, d)
    ensures var s' := AfterAll(p, s, hs);
            && Every(p, s', d)
            && (s'.status == Active <==> StaysActive(p, s, hs, t => true))
            && (Starts(p, s, hs) == [] ==> s'.nextRunAt == s.nextRunAt)
  {
    if hs != [] {
      IntervalAfter(p, s, hs[..|hs| - 1], d);
      StartsGrow(p, s, hs);
    }
  }

  /**
   * The same for interval schedules, positive interval or not: due if and only if active and the interval since the
   * last start is over, or the update after that start failed.
   */
  lemma {:induction false} IntervalDueExactly(p: Parsers, s: Schedule, hs: seq<Happening>, h: Happening, d: int)
    requires Every(p, s, d) && InTime(hs + [h]) && h.Poll?
    ensures Due(AfterAll(p, s, hs), h.now) <==>
              StaysActive(p, s, hs, t => true) && IntervalIsOver(p, s, hs, d, h.now)
  {
    hide AfterAll, Starts, LastUpdateFailed, StaysActive;
    IntervalAfter(p, s, hs, d);
    AfterLastStart(p, s, hs, d);
    StartsBefore(p, s, hs, h);
    var starts := Starts(p, s, hs);
    if starts != [] { assert starts[|starts| - 1] in starts; }
  }

  lemma {:induction false} IntervalStartsExactly(p: Parsers, s: Schedule, hs: seq<Happening>, h: Happening, d: int)
    requires Every(p, s, d) && InTime(hs + [h])
    ensures var starts :=
              h.Poll? && !h.startFails && StaysActive(p, s, hs, t => true) && IntervalIsOver(p, s, hs, d, h.now);
            Starts(p, s, hs + [h]) == Starts(p, s, hs) + if starts then [h.now] else []
  {
    hide Due, AfterAll, StaysActive, IntervalIsOver;
    assert (hs + [h])[..|hs|] == hs;
    if h.Poll? { IntervalDueExactly(p, s, hs, h, d); }
  }

  /** Schedules to be run once, and recurring ones that cannot be read. */
  predicate RunsOnce(p: Parsers, s: Schedule) {
    || s.kind == Once || s.kind == Delayed
    || (s.kind == Recurring && s.cron == "" && (s.interval == "" || p.duration(s.interval).None?))
  }

  /** These are due at their time, and not after a start unless resumed; those of an unknown kind are due for ever. */
  lemma {:induction false} OthersDueExactly(p: Parsers, s: Schedule, hs: seq<Happening>, now: int)
    requires RunsOnce(p, s) || s.kind == Unknown
    ensures Due(AfterAll(p, s, hs), now) <==> StaysActive(p, s, hs, t => s.kind == Unknown) && s.nextRunAt <= now
    ensures var s' := AfterAll(p, s, hs);
            && s'.kind == s.kind && s'.cron == s.cron && s'.interval == s.interval && s'.nextRunAt == s.nextRunAt
            && (s'.status == Active <==> StaysActive(p, s, hs, t => s.kind == Unknown))
  {
    if hs != [] { OthersDueExactly(p, s, hs[..|hs| - 1], now); }
  }

  /******* Many instances, one leader *******/

  /** Who holds the lock in the database, and which instances believe they do. */
  datatype Cluster = Cluster(holder: Option<nat>, believers: set<nat>)

  /** An instance tries for the lock, loses its connection (and with it the lock), or gives the lock back. */
  datatype LockEvent = Try(i: nat) | Lose(i: nat) | Release(i: nat)

  /** Whether an instance that tries now may go on to poll. */
  predicate Leads(c: Cluster, i: nat) {
    if i in c.believers then c.holder == Some(i) else c.holder.None?
  }

  function NextCluster(c: Cluster, e: LockEvent): Cluster {
    match e
    case Try(i) =>
      if i in c.believers then c.(believers := if c.holder == Some(i) then c.believers else c.believers - {i})
      else if c.holder.None? then Cluster(Some(i), c.believers + {i})
      else c
    case Lose(i) => if c.holder == Some(i) then c.(holder := None) else c
    case Release(i) => Cluster(if c.holder == Some(i) then None else c.holder, c.believers - {i})
  }

  function RunCluster(c: Cluster, events: seq<LockEvent>): Cluster {
    if events == [] then c else NextCluster(RunCluster(c, events[..|events| - 1]), events[|events| - 1])
  }

  /** The trying method does in one instance what the cluster model says: belief follows the database. */
  lemma {:induction false} BelieverTries(c: Cluster, i: nat)
    requires c.holder.Some? ==> c.holder.value in c.believers
    ensures var c' := NextCluster(c, Try(i));
            (i in c'.believers <==> Leads(c, i)) && (Leads(c, i) ==> c'.holder == Some(i))
  {
  }

  lemma {:induction false} HolderBelieves(events: seq<LockEvent>)
    ensures var c := RunCluster(Cluster(None, {}), events); c.holder.Some? ==> c.holder.value in c.believers
  {
    if events != [] { HolderBelieves(events[..|events| - 1]); }
  }

  /** While the leader neither loses nor gives back the lock, nobody else may poll. */
  lemma {:induction false} OneLeader(before: seq<LockEvent>, i: nat, since: seq<LockEvent>, j: nat)
    requires Leads(RunCluster(Cluster(None, {}), before), i) && i != j
    requires forall e | e in since :: e != Lose(i) && e != Release(i)
    ensures var c := RunCluster(NextCluster(RunCluster(Cluster(None, {}), before), Try(i)), since);
            c.holder == Some(i) && i in c.believers && !Leads(c, j)
  {
    var c := RunCluster(Cluster(None, {}), before);
    HolderBelieves(before);
    BelieverTries(c, i);
    if since != [] {
      var init := since[..|since| - 1];
      assert forall e | e in init :: e in since;
      OneLeader(before, i, init, j);
      assert since[|since| - 1] in since;
    }
  }
}
