/** How workflow definitions are stored and read back. */
module Definitions {
  import opened Models
  import opened Compensation

  /** A row of `activities`; NULL columns are `None`. */
  datatype ActivityRecord = ActivityRecord(name: string, compensation: Option<string>, maxAttempts: Option<int>,
      position: nat)

  function Encode(a: Activity, position: nat): ActivityRecord {
    ActivityRecord(a.name, if a.compensation == "" then None else Some(a.compensation), a.maxAttempts, position)
  }

  function Decode(r: ActivityRecord): Activity {
    Activity(r.name, if r.compensation.Some? then r.compensation.value else "", r.maxAttempts)
  }

  /** The rows of a definition, by position. */
  predicate Stores(rows: seq<ActivityRecord>, wf: Workflow) {
    |rows| == |wf| && forall i | 0 <= i < |wf| :: rows[i] == Encode(wf[i], i)
  }

  ghost predicate Storable(rows: seq<ActivityRecord>) {
    exists wf :: DistinctNames(wf) && Stores(rows, wf)
  }

  lemma {:induction false} StoredIsStorable(rows: seq<ActivityRecord>, wf: Workflow)
    requires DistinctNames(wf) && Stores(rows, wf)
    ensures Storable(rows)
  {
  }

  class WorkflowRepo {
    /** The rows of the table `activities`, by workflow and position. */
    var activities: map<string, seq<ActivityRecord>>

    ghost predicate Valid()
      reads this
    {
      forall id | id in activities :: Storable(activities[id])
    }

    constructor ()
      ensures Valid() && activities == map[]
    {
      activities := map[];
    }

    /** Inserts the activities one by one; the unique constraint refuses a name that the workflow already has. */
    method InsertActivities(id: string, wf: Workflow) returns (ok: bool)
      requires id in activities && activities[id] == []
      modifies this`activities
      ensures ok <==> DistinctNames(wf)
      ensures id in activities && activities == old(activities)[id := activities[id]]
      ensures ok ==> Stores(activities[id], wf)
    {
      var i := 0;
      while i < |wf|
        invariant 0 <= i <= |wf| && id in activities && Stores(activities[id], wf[..i]) && DistinctNames(wf[..i])
        invariant activities == old(activities)[id := activities[id]]
      {
        var taken := false;
        for j := 0 to |activities[id]|
          invariant taken <==> exists k :: 0 <= k < j && activities[id][k].name == wf[i].name
        {
          taken := taken || activities[id][j].name == wf[i].name;
        }
        assert forall k | 0 <= k < i :: activities[id][k].name == wf[..i][k].name == wf[k].name;
        if taken {
          return false;
        }
        assert wf[..i + 1] == wf[..i] + [wf[i]];
        activities := activities[id := activities[id] + [Encode(wf[i], i)]];
        i := i + 1;
      }
      assert wf[..|wf|] == wf;
      return true;
    }

    /** Stores a definition under a new id, or nothing of it. */
    method CreateWorkflow(id: string, wf: Workflow) returns (ok: bool)
      requires Valid()
      modifies this
      ensures Valid() && ok == (id !in old(activities) && DistinctNames(wf))
      ensures ok ==>
                id in activities && Stores(activities[id], wf) && activities == old(activities)[id := activities[id]]
      ensures !ok ==> activities == old(activities)
    {
      hide Storable, DistinctNames, Stores;
      if id in activities {
        return false;
      }
      var activities0 := activities;
      activities := activities[id := []];
      ok := InsertActivities(id, wf);
      if !ok {
        activities := activities0;
      } else {
        StoredIsStorable(activities[id], wf);
      }
    }

    /** Reads a definition back. */
    method GetWorkflow(id: string) returns (wf: Option<Workflow>)
      requires Valid()
      ensures wf.Some? <==> id in activities
      ensures wf.Some? ==> DistinctNames(wf.value) && Stores(activities[id], wf.value)
    {
      if id !in activities {
        return None;
      }
      var rows := activities[id];
      ghost var stored :| DistinctNames(stored) && Stores(rows, stored);
      var acts: Workflow := [];
      for i := 0 to |rows|
        invariant |acts| == i && forall k | 0 <= k < i :: acts[k] == stored[k]
      {
        acts := acts + [Decode(rows[i])];
      }
      assert acts == stored;
      return Some(acts);
    }
  }

  /** What is read back is what was stored, activity by activity and in order. */
  lemma {:induction false} StoredOnce(rows: seq<ActivityRecord>, wf: Workflow, wf': Workflow)
    requires Stores(rows, wf) && Stores(rows, wf')
    ensures wf == wf'
  {
  }

  /**
   * A definition that can be stored has distinct names. It is well-formed if and only if, besides, no compensation of
   * an activity before the last is called like an activity, which nothing checks when it is stored.
   */
  lemma {:induction false} StorableIsNearlyWellFormed(wf: Workflow)
    requires DistinctNames(wf)
    ensures WellFormed(wf) <==>
              forall i | 0 <= i < |wf| - 1 && wf[i].compensation != "" :: !IsForward(wf, wf[i].compensation)
  {
  }
}
