/** Which compensation comes next: `determineNextCompensation` and what it computes. */
module Compensation {
  import opened Models

  /******* Looking a name up in a definition *******/

  /** The first activity called `name`. */
  function PositionOf(wf: Workflow, name: string): (r: Option<nat>)
    ensures r.Some? ==> r.value < |wf| && wf[r.value].name == name
    ensures r.Some? ==> forall i | 0 <= i < r.value :: wf[i].name != name
    ensures r.None? ==> forall i | 0 <= i < |wf| :: wf[i].name != name
  {
    if wf == [] then None
    else
      var r := PositionOf(wf[..|wf| - 1], name);
      if r.Some? then r
      else if wf[|wf| - 1].name == name then Some(|wf| - 1)
      else None
  }

  /** The first activity whose compensation is called `name`. */
  function CompensatorOf(wf: Workflow, name: string): (r: Option<nat>)
    ensures r.Some? ==> r.value < |wf| && wf[r.value].compensation == name
    ensures r.Some? ==> forall i | 0 <= i < r.value :: wf[i].compensation != name
    ensures r.None? ==> forall i | 0 <= i < |wf| :: wf[i].compensation != name
  {
    if wf == [] then None
    else
      var r := CompensatorOf(wf[..|wf| - 1], name);
      if r.Some? then r
      else if wf[|wf| - 1].compensation == name then Some(|wf| - 1)
      else None
  }

  predicate IsForward(wf: Workflow, name: string) {
    PositionOf(wf, name).Some?
  }

  function CompensationOf(wf: Workflow, name: string): string {
    match PositionOf(wf, name)
    case Some(i) => wf[i].compensation
    case None => ""
  }

  ghost predicate DistinctNames(wf: Workflow) {
    forall i, j | 0 <= i < j < |wf| :: wf[i].name != wf[j].name
  }

  /** No compensation that can come up is called like an activity. That of the last activity never comes up. */
  ghost predicate CompensationsApart(wf: Workflow) {
    forall i, j | 0 <= i < |wf| - 1 && 0 <= j < |wf| && wf[i].compensation != "" :: wf[i].compensation != wf[j].name
  }

  ghost predicate WellFormed(wf: Workflow) {
    DistinctNames(wf) && CompensationsApart(wf)
  }

  lemma {:induction false} PositionOfName(wf: Workflow, i: nat)
    requires DistinctNames(wf) && i < |wf|
    ensures PositionOf(wf, wf[i].name) == Some(i)
  {
  }

  lemma {:induction false} CompensationIsNotForward(wf: Workflow, i: nat)
    requires WellFormed(wf) && i < |wf| - 1 && wf[i].compensation != ""
    ensures !IsForward(wf, wf[i].compensation)
  {
  }

  /******* The next-step function *******/

  predicate Settled(r: ActivityRow) {
    r.status == RowCompleted || r.status == RowFailed
  }

  /** Names of settled rows that are no activity of the definition: completed or failed compensations. */
  function CompletedComps(wf: Workflow, acts: seq<ActivityRow>): set<string> {
    set r | r in acts && Settled(r) && !IsForward(wf, r.name) :: r.name
  }

  /** A completed forward row whose compensation is still outstanding. */
  predicate Awaiting(wf: Workflow, r: ActivityRow, done: set<string>) {
    && r.status == RowCompleted
    && IsForward(wf, r.name)
    && CompensationOf(wf, r.name) != ""
    && CompensationOf(wf, r.name) !in done
  }

  /** Scans a list from its end for a row whose compensation is outstanding. */
  function LastAwaiting(wf: Workflow, acts: seq<ActivityRow>, done: set<string>): Option<string> {
    if acts == [] then None
    else
      var r := acts[|acts| - 1];
      if Awaiting(wf, r, done) then Some(CompensationOf(wf, r.name)) else LastAwaiting(wf, acts[..|acts| - 1], done)
  }

  function DetermineNext(wf: Workflow, acts: seq<ActivityRow>): Option<string> {
    LastAwaiting(wf, acts, CompletedComps(wf, acts))
  }

  /** The rows the first pass keeps. */
  function CompletedNormal(wf: Workflow, acts: seq<ActivityRow>): seq<ActivityRow> {
    if acts == [] then []
    else
      var r := acts[|acts| - 1];
      CompletedNormal(wf, acts[..|acts| - 1]) + (if r.status == RowCompleted && IsForward(wf, r.name) then [r] else [])
  }

  lemma {:induction false} FirstPassKeepsEnough(wf: Workflow, acts: seq<ActivityRow>, done: set<string>)
    ensures LastAwaiting(wf, CompletedNormal(wf, acts), done) == LastAwaiting(wf, acts, done)
  {
    if acts != [] {
      var init, r := acts[..|acts| - 1], acts[|acts| - 1];
      FirstPassKeepsEnough(wf, init, done);
      if r.status == RowCompleted && IsForward(wf, r.name) {
        assert CompletedNormal(wf, acts)[..|CompletedNormal(wf, acts)| - 1] == CompletedNormal(wf, init);
      } else {
        assert CompletedNormal(wf, acts) == CompletedNormal(wf, init);
      }
    }
  }

  /** Whether a name is an activity of the definition. */
  method IsNormal(wf: Workflow, name: string) returns (isNormal: bool)
    ensures isNormal == IsForward(wf, name)
  {
    isNormal := false;
    for j := 0 to |wf|
      invariant !isNormal && forall k | 0 <= k < j :: wf[k].name != name
    {
      if wf[j].name == name {
        isNormal := true;
        break;
      }
    }
  }

  /** The activity of a name, or none. */
  method FindActivity(wf: Workflow, name: string) returns (found: Option<nat>)
    ensures found == PositionOf(wf, name)
  {
    found := None;
    for j := 0 to |wf|
      invariant found == None && forall k | 0 <= k < j :: wf[k].name != name
    {
      if wf[j].name == name {
        found := Some(j);
        break;
      }
    }
  }

  lemma {:induction false} CollectStep(wf: Workflow, acts: seq<ActivityRow>, i: nat)
    requires i < |acts|
    ensures CompletedNormal(wf, acts[..i + 1]) == CompletedNormal(wf, acts[..i]) +
              if acts[i].status == RowCompleted && IsForward(wf, acts[i].name) then [acts[i]] else []
    ensures CompletedComps(wf, acts[..i + 1]) == CompletedComps(wf, acts[..i]) +
              if Settled(acts[i]) && !IsForward(wf, acts[i].name) then {acts[i].name} else {}
  {
    assert acts[..i + 1][..i] == acts[..i];
    assert acts[..i + 1] == acts[..i] + [acts[i]];
  }

  /** The first pass of the engine: collect completed forward rows and the names of settled compensations. */
  method CollectSettled(wf: Workflow, acts: seq<ActivityRow>)
    returns (completedNormal: seq<ActivityRow>, completedComps: map<string, bool>)
    ensures completedNormal == CompletedNormal(wf, acts)
    ensures completedComps.Keys == CompletedComps(wf, acts)
  {
    completedNormal := [];
    completedComps := map[];
    for i := 0 to |acts|
      invariant completedNormal == CompletedNormal(wf, acts[..i])
      invariant completedComps.Keys == CompletedComps(wf, acts[..i])
    {
      var a := acts[i];
      CollectStep(wf, acts, i);
      if a.status == RowCompleted || a.status == RowFailed {
        var isNormal := IsNormal(wf, a.name);
        if isNormal {
          if a.status == RowCompleted {
            completedNormal := completedNormal + [a];
          }
        } else {
          completedComps := completedComps[a.name := true];
        }
      }
    }
    assert acts[..|acts|] == acts;
  }

  /** The second pass: scan the completed rows backwards for an outstanding compensation. */
  method DetermineNextCompensation(wf: Workflow, acts: seq<ActivityRow>) returns (next: Option<string>)
    ensures next == DetermineNext(wf, acts)
  {
    var completedNormal, completedComps := CollectSettled(wf, acts);
    FirstPassKeepsEnough(wf, acts, CompletedComps(wf, acts));

    var i := |completedNormal|;
    assert completedNormal[..i] == completedNormal;
    while i > 0
      invariant 0 <= i <= |completedNormal|
      invariant LastAwaiting(wf, completedNormal[..i], completedComps.Keys) == DetermineNext(wf, acts)
      invariant completedNormal == CompletedNormal(wf, acts)
    {
      i := i - 1;
      assert completedNormal[..i + 1][..i] == completedNormal[..i];
      var actExec := completedNormal[i];
      NormalRowsAreCompleted(wf, acts, i);
      var wfAct := FindActivity(wf, actExec.name);
      if wfAct.Some? && wf[wfAct.value].compensation != "" {
        if wf[wfAct.value].compensation !in completedComps {
          return Some(wf[wfAct.value].compensation);
        }
      }
    }
    return None;
  }

  lemma {:induction false} NormalRowsAreCompleted(wf: Workflow, acts: seq<ActivityRow>, i: nat)
    requires i < |CompletedNormal(wf, acts)|
    ensures CompletedNormal(wf, acts)[i] in acts
    ensures CompletedNormal(wf, acts)[i].status == RowCompleted
    ensures IsForward(wf, CompletedNormal(wf, acts)[i].name)
  {
    if i < |CompletedNormal(wf, acts[..|acts| - 1])| {
      NormalRowsAreCompleted(wf, acts[..|acts| - 1], i);
    }
  }

  /******* What it computes *******/

  ghost predicate Latest(wf: Workflow, acts: seq<ActivityRow>, done: set<string>, r: ActivityRow) {
    && r in acts && Awaiting(wf, r, done) && r.completedAt.Some?
    && forall r' | r' in acts && Awaiting(wf, r', done) ::
         r'.completedAt.Some? && r'.completedAt.value <= r.completedAt.value
  }

  /** `next` is the compensation of the latest completed row that awaits one; none, when no row does. */
  ghost predicate IsLatestAwaiting(wf: Workflow, acts: seq<ActivityRow>, next: Option<string>) {
    var done := CompletedComps(wf, acts);
    match next
    case None => forall r | r in acts :: !Awaiting(wf, r, done)
    case Some(c) => exists r :: Latest(wf, acts, done, r) && CompensationOf(wf, r.name) == c
  }

  /** Completed rows stand in the order in which they completed. */
  ghost predicate CompletedInOrder(acts: seq<ActivityRow>) {
    && (forall i | 0 <= i < |acts| && acts[i].status == RowCompleted :: acts[i].completedAt.Some?)
    && (forall i, j | 0 <= i < j < |acts| && acts[i].status == RowCompleted && acts[j].status == RowCompleted ::
          acts[i].completedAt.value <= acts[j].completedAt.value)
  }

  lemma {:induction false} ScanFindsLatest(wf: Workflow, acts: seq<ActivityRow>, done: set<string>)
    requires CompletedInOrder(acts)
    ensures match LastAwaiting(wf, acts, done)
            case None => forall r | r in acts :: !Awaiting(wf, r, done)
            case Some(c) => exists r :: Latest(wf, acts, done, r) && CompensationOf(wf, r.name) == c
  {
    if acts != [] {
      var init, last := acts[..|acts| - 1], acts[|acts| - 1];
      assert acts == init + [last];
      if Awaiting(wf, last, done) {
        assert Latest(wf, acts, done, last);
      } else {
        ScanFindsLatest(wf, init, done);
        if r :| Latest(wf, init, done, r) && LastAwaiting(wf, init, done) == Some(CompensationOf(wf, r.name)) {
          assert Latest(wf, acts, done, r);
        }
      }
    }
  }

  /**
   * On any list in completion order the engine picks the latest outstanding compensation, and none iff there is none.
   */
  lemma {:induction false} DetermineNextIsLatest(wf: Workflow, acts: seq<ActivityRow>)
    requires CompletedInOrder(acts)
    ensures IsLatestAwaiting(wf, acts, DetermineNext(wf, acts))
  {
    ScanFindsLatest(wf, acts, CompletedComps(wf, acts));
  }

  /** No two rows carry the same completion time. */
  ghost predicate DistinctTimes(rows: seq<ActivityRow>) {
    forall i, j | 0 <= i < j < |rows| && rows[i].completedAt.Some? && rows[j].completedAt.Some? ::
      rows[i].completedAt != rows[j].completedAt
  }

  /** The answer depends on which rows there are, not on how they are listed. */
  lemma {:induction false} LatestIsUnique(wf: Workflow, rows: seq<ActivityRow>, acts: seq<ActivityRow>,
      next: Option<string>, next': Option<string>)
    requires DistinctTimes(rows)
    requires forall r :: r in rows <==> r in acts
    requires IsLatestAwaiting(wf, rows, next) && IsLatestAwaiting(wf, acts, next')
    ensures next == next'
  {
  }

  /** The compensations still outstanding. */
  ghost function Outstanding(wf: Workflow, acts: seq<ActivityRow>): set<string> {
    set r | r in acts && Awaiting(wf, r, CompletedComps(wf, acts)) :: CompensationOf(wf, r.name)
  }

  /** Settling the chosen compensation removes exactly it from the outstanding set. */
  lemma {:induction false} SettlingShrinksOutstanding(wf: Workflow, acts: seq<ActivityRow>, comp: ActivityRow)
    requires Settled(comp) && !IsForward(wf, comp.name)
    ensures Outstanding(wf, acts + [comp]) == Outstanding(wf, acts) - {comp.name}
    ensures CompletedInOrder(acts) && DetermineNext(wf, acts) == Some(comp.name)
            ==> comp.name in Outstanding(wf, acts)
  {
    var done, done' := CompletedComps(wf, acts), CompletedComps(wf, acts + [comp]);
    assert done' == done + {comp.name};
    forall c ensures c in Outstanding(wf, acts + [comp]) <==> c in Outstanding(wf, acts) && c != comp.name {
      if c in Outstanding(wf, acts) && c != comp.name {
        var r :| r in acts && Awaiting(wf, r, done) && CompensationOf(wf, r.name) == c;
        assert r in acts + [comp] && Awaiting(wf, r, done');
      }
      if c in Outstanding(wf, acts + [comp]) {
        var r :| r in acts + [comp] && Awaiting(wf, r, done') && CompensationOf(wf, r.name) == c;
        assert r in acts && Awaiting(wf, r, done);
      }
    }
    if CompletedInOrder(acts) && DetermineNext(wf, acts) == Some(comp.name) {
      DetermineNextIsLatest(wf, acts);
      var r :| Latest(wf, acts, done, r) && CompensationOf(wf, r.name) == comp.name;
    }
  }

  /******* The order in which a saga unwinds *******/

  /** The non-empty compensations of the first `k` activities, last activity first. */
  function ReversedCompensations(wf: Workflow, k: nat): seq<string>
    requires k <= |wf|
  {
    if k == 0 then []
    else
      (if wf[k - 1].compensation == "" then [] else [wf[k - 1].compensation]) + ReversedCompensations(wf, k - 1)
  }

  function Without(s: seq<string>, c: string): seq<string> {
    if s == [] then []
    else (if s[0] == c then [] else [s[0]]) + Without(s[1..], c)
  }

  /** Keeps the first occurrence of each element. */
  function DropRepeats(s: seq<string>): seq<string> {
    if s == [] then [] else [s[0]] + Without(DropRepeats(s[1..]), s[0])
  }

  /** What must be undone, in order, once the first `k` activities have completed. */
  function UndoPlan(wf: Workflow, k: nat): seq<string>
    requires k <= |wf|
  {
    DropRepeats(ReversedCompensations(wf, k))
  }

  function FirstNotIn(s: seq<string>, done: set<string>): Option<string> {
    if s == [] then None
    else if s[0] !in done then Some(s[0])
    else FirstNotIn(s[1..], done)
  }

  ghost predicate NoRepeats(s: seq<string>) {
    forall i, j | 0 <= i < j < |s| :: s[i] != s[j]
  }

  lemma {:induction false} WithoutProperties(s: seq<string>, c: string, done: set<string>)
    ensures forall x :: x in Without(s, c) <==> x in s && x != c
    ensures NoRepeats(s) ==> NoRepeats(Without(s, c))
    ensures c in done ==> FirstNotIn(Without(s, c), done) == FirstNotIn(s, done)
  {
    if s != [] {
      WithoutProperties(s[1..], c, done);
      assert s == [s[0]] + s[1..];
      var rest := Without(s[1..], c);
      if s[0] == c {
        assert Without(s, c) == rest;
      } else {
        assert Without(s, c) == [s[0]] + rest;
        assert ([s[0]] + rest)[1..] == rest;
        if NoRepeats(s) {
          assert NoRepeats(s[1..]);
          assert s[0] !in s[1..];
          assert s[0] !in rest;
          forall i, j | 0 <= i < j < |Without(s, c)| ensures Without(s, c)[i] != Without(s, c)[j] {
            assert Without(s, c)[j] == rest[j - 1] && rest[j - 1] in rest;
            if i > 0 { assert Without(s, c)[i] == rest[i - 1]; }
          }
        }
      }
    }
  }

  lemma {:induction false} DropRepeatsProperties(s: seq<string>)
    ensures NoRepeats(DropRepeats(s))
    ensures forall x :: x in DropRepeats(s) <==> x in s
  {
    if s != [] {
      DropRepeatsProperties(s[1..]);
      var rest := Without(DropRepeats(s[1..]), s[0]);
      WithoutProperties(DropRepeats(s[1..]), s[0], {});
      assert s == [s[0]] + s[1..];
      var d := DropRepeats(s);
      assert d == [s[0]] + rest;
      forall i, j | 0 <= i < j < |d| ensures d[i] != d[j] {
        assert d[j] == rest[j - 1] && rest[j - 1] in rest;
        if i > 0 { assert d[i] == rest[i - 1]; }
      }
    }
  }

  /** The plan names each compensation of the completed activities once, and nothing else. */
  lemma {:induction false} UndoPlanMembers(wf: Workflow, k: nat)
    requires k <= |wf|
    ensures NoRepeats(UndoPlan(wf, k))
    ensures forall c :: c in UndoPlan(wf, k) <==> c != "" && exists i | 0 <= i < k :: wf[i].compensation == c
  {
    DropRepeatsProperties(ReversedCompensations(wf, k));
    ReversedMembers(wf, k);
  }

  /** Completing one more activity puts its compensation in front, and drops it further back. */
  lemma {:induction false} UndoPlanStep(wf: Workflow, k: nat)
    requires 0 < k <= |wf|
    ensures var c := wf[k - 1].compensation;
            UndoPlan(wf, k) == if c == "" then UndoPlan(wf, k - 1) else [c] + Without(UndoPlan(wf, k - 1), c)
  {
    var c := wf[k - 1].compensation;
    var rest := ReversedCompensations(wf, k - 1);
    if c == "" {
      assert ReversedCompensations(wf, k) == rest;
    } else {
      assert ReversedCompensations(wf, k) == [c] + rest;
      assert ([c] + rest)[1..] == rest;
    }
  }

  lemma {:induction false} UndoPlanHasNoRepeats(wf: Workflow, k: nat)
    requires k <= |wf|
    ensures NoRepeats(UndoPlan(wf, k))
  {
    DropRepeatsProperties(ReversedCompensations(wf, k));
  }

  lemma {:induction false} ReversedMembers(wf: Workflow, k: nat)
    requires k <= |wf|
    ensures forall c :: c in ReversedCompensations(wf, k) <==>
              c != "" && exists i | 0 <= i < k :: wf[i].compensation == c
  {
    if k > 0 {
      ReversedMembers(wf, k - 1);
      forall c | c in ReversedCompensations(wf, k) ensures c != "" && exists i | 0 <= i < k :: wf[i].compensation == c {
        if c !in ReversedCompensations(wf, k - 1) {
          assert wf[k - 1].compensation == c;
        }
      }
    }
  }

  lemma {:induction false} PlanEntriesAreNotForward(wf: Workflow, k: nat)
    requires WellFormed(wf) && k < |wf|
    ensures forall c | c in UndoPlan(wf, k) :: !IsForward(wf, c)
  {
    UndoPlanMembers(wf, k);
    forall c | c in UndoPlan(wf, k) ensures !IsForward(wf, c) {
      var i :| 0 <= i < k && wf[i].compensation == c;
      CompensationIsNotForward(wf, i);
    }
  }

  lemma {:induction false} FirstNotInPrefix(s: seq<string>, m: nat)
    requires NoRepeats(s) && m <= |s|
    ensures FirstNotIn(s, (set x | x in s[..m])) == if m < |s| then Some(s[m]) else None
  {
    FirstNotInSkips(s, (set x | x in s[..m]), m);
    if m < |s| {
      assert s[m] !in s[..m];
    }
  }

  lemma {:induction false} FirstNotInSkips(s: seq<string>, done: set<string>, m: nat)
    requires m <= |s| && forall i | 0 <= i < m :: s[i] in done
    ensures FirstNotIn(s, done) == FirstNotIn(s[m..], done)
  {
    if m > 0 {
      FirstNotInSkips(s[1..], done, m - 1);
      assert s[1..][m - 1..] == s[m..];
    }
  }

  /** The names of the first `k` activities. */
  function ForwardNames(wf: Workflow, k: nat): (names: seq<string>)
    requires k <= |wf|
    ensures |names| == k
  {
    if k == 0 then [] else ForwardNames(wf, k - 1) + [wf[k - 1].name]
  }

  /** The names of completed forward rows, in list order. */
  function CompletedNames(wf: Workflow, acts: seq<ActivityRow>): seq<string> {
    if acts == [] then []
    else
      var r := acts[|acts| - 1];
      CompletedNames(wf, acts[..|acts| - 1]) +
          (if r.status == RowCompleted && IsForward(wf, r.name) then [r.name] else [])
  }

  lemma {:induction false} LastName(a: seq<string>, x: string, b: seq<string>, y: string)
    requires a + [x] == b + [y]
    ensures a == b && x == y
  {
    assert (a + [x])[..|a|] == a && (b + [y])[..|b|] == b;
    assert (a + [x])[|a|] == x && (b + [y])[|b|] == y;
  }

  lemma {:induction false} ScanStep(wf: Workflow, acts: seq<ActivityRow>, k: nat, done: set<string>)
    requires DistinctNames(wf) && 0 < k <= |wf| && acts != []
    requires acts[|acts| - 1].status == RowCompleted && acts[|acts| - 1].name == wf[k - 1].name
    requires LastAwaiting(wf, acts[..|acts| - 1], done) == FirstNotIn(UndoPlan(wf, k - 1), done)
    ensures LastAwaiting(wf, acts, done) == FirstNotIn(UndoPlan(wf, k), done)
  {
    PositionOfName(wf, k - 1);
    PlanStep(wf, k, done);
  }

  /** When exactly the first `k` activities have completed, in order, the backward scan walks the undo plan. */
  lemma {:induction false} ScanFollowsPlan(wf: Workflow, acts: seq<ActivityRow>, k: nat, done: set<string>)
    requires DistinctNames(wf) && k <= |wf|
    requires CompletedNames(wf, acts) == ForwardNames(wf, k)
    ensures LastAwaiting(wf, acts, done) == FirstNotIn(UndoPlan(wf, k), done)
  {
    assert k == |CompletedNames(wf, acts)|;
    if acts != [] {
      var init, r := acts[..|acts| - 1], acts[|acts| - 1];
      if r.status == RowCompleted && IsForward(wf, r.name) {
        assert CompletedNames(wf, acts) == CompletedNames(wf, init) + [r.name];
        LastName(CompletedNames(wf, init), r.name, ForwardNames(wf, k - 1), wf[k - 1].name);
        ScanFollowsPlan(wf, init, k - 1, done);
        ScanStep(wf, acts, k, done);
      } else {
        assert CompletedNames(wf, init) == CompletedNames(wf, acts);
        ScanFollowsPlan(wf, init, k, done);
      }
    }
  }

  lemma {:induction false} PlanStep(wf: Workflow, k: nat, done: set<string>)
    requires 0 < k <= |wf|
    ensures var c := wf[k - 1].compensation;
            FirstNotIn(UndoPlan(wf, k), done) ==
            if c != "" && c !in done then Some(c) else FirstNotIn(UndoPlan(wf, k - 1), done)
  {
    var c := wf[k - 1].compensation;
    UndoPlanStep(wf, k);
    if c != "" {
      var rest := Without(UndoPlan(wf, k - 1), c);
      assert ([c] + rest)[1..] == rest;
      WithoutProperties(UndoPlan(wf, k - 1), c, done);
    }
  }
}
