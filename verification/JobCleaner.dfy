/** Deleting the Jobs of one GitHub job id (internal/cleanup/job_cleaner.go). */
module JobCleaner {
  import opened Pods

  /** A Job as the cleaner and the stale sweep see it; times are nanoseconds. */
  datatype K8sJob = K8sJob(name: string, labels: map<string, string>, created: int)

  /** The answer of the dispatch lock check; a cleaner without one behaves as if always unlocked. */
  datatype LockReply = Unlocked | Locked | LockError

  /** Which of the cleaner's API calls fail. */
  datatype Faults = Faults(list: bool, deletes: set<string>)

  function JobID(j: K8sJob): string { if LABEL_GH_JOB in j.labels then j.labels[LABEL_GH_JOB] else "" }

  /** The Jobs labelled with the id, in listing order (asked for non-empty ids only). */
  function Group(jobs: seq<K8sJob>, id: string): seq<K8sJob> {
    if jobs == [] then []
    else if JobID(jobs[0]) == id then [jobs[0]] + Group(jobs[1..], id)
    else Group(jobs[1..], id)
  }

  lemma {:induction false} GroupMembers(jobs: seq<K8sJob>, id: string, j: K8sJob)
    ensures j in Group(jobs, id) <==> j in jobs && JobID(j) == id
  {
    if jobs != [] {
      GroupMembers(jobs[1..], id, j);
      assert jobs == [jobs[0]] + jobs[1..];
    }
  }

  /** The Jobs whose names are not in the set, in listing order. */
  function Without(jobs: seq<K8sJob>, names: set<string>): seq<K8sJob> {
    if jobs == [] then []
    else if jobs[0].name in names then Without(jobs[1..], names)
    else [jobs[0]] + Without(jobs[1..], names)
  }

  lemma {:induction false} WithoutMembers(jobs: seq<K8sJob>, names: set<string>, j: K8sJob)
    ensures j in Without(jobs, names) <==> j in jobs && j.name !in names
  {
    if jobs != [] {
      WithoutMembers(jobs[1..], names, j);
      assert jobs == [jobs[0]] + jobs[1..];
    }
  }

  lemma {:induction false} WithoutNone(jobs: seq<K8sJob>)
    ensures Without(jobs, {}) == jobs
  {
    if jobs != [] {
      WithoutNone(jobs[1..]);
    }
  }

  lemma {:induction false} WithoutMore(jobs: seq<K8sJob>, a: set<string>, b: set<string>)
    ensures Without(Without(jobs, a), b) == Without(jobs, a + b)
  {
    if jobs != [] {
      WithoutMore(jobs[1..], a, b);
      if jobs[0].name !in a {
        assert Without(jobs, a)[1..] == Without(jobs[1..], a);
      }
    }
  }

  function NamesOf(jobs: seq<K8sJob>): set<string> { set j | j in jobs :: j.name }

  /** No two Jobs have the same name. */
  ghost predicate Distinct(jobs: seq<K8sJob>) {
    forall a, b :: a in jobs && b in jobs && a.name == b.name ==> a == b
  }

  /** With its whole group deleted, exactly the Jobs of other ids are left. */
  lemma GroupGone(jobs: seq<K8sJob>, id: string, j: K8sJob)
    requires Distinct(jobs)
    ensures j in Without(jobs, NamesOf(Group(jobs, id))) <==> j in jobs && JobID(j) != id
  {
    var group := Group(jobs, id);
    WithoutMembers(jobs, NamesOf(group), j);
    GroupMembers(jobs, id, j);
    if j in jobs && j.name in NamesOf(group) {
      var k :| k in group && k.name == j.name;
      GroupMembers(jobs, id, k);
    }
  }

  class Cluster {
    var jobs: seq<K8sJob>

    constructor (jobs: seq<K8sJob>)
      ensures this.jobs == jobs
    {
      this.jobs := jobs;
    }

    method DeleteJob(name: string)
      modifies this
      ensures jobs == Without(old(jobs), {name})
    {
      jobs := Without(jobs, {name});
    }
  }

  /** Deletes the group of the id Job by Job until a delete fails. Nothing happens while the id is
      locked; the lock check or the listing failing is an error. */
  method CleanupByJobID(c: Cluster, jobID: string, lock: LockReply, faults: Faults) returns (deleted: nat, failed: bool)
    modifies c
    ensures var group := Group(old(c.jobs), jobID);
            && deleted <= |group|
            && c.jobs == Without(old(c.jobs), NamesOf(group[..deleted]))
            && (forall i :: 0 <= i < deleted ==> group[i].name !in faults.deletes)
            && (failed <==> jobID != "" && (lock.LockError? || (lock.Unlocked? && (faults.list || deleted < |group|))))
            && (jobID == "" || !lock.Unlocked? || faults.list ==> deleted == 0)
            && (failed && lock.Unlocked? && !faults.list ==> group[deleted].name in faults.deletes)
  {
    var group := Group(c.jobs, jobID);
    ghost var before := c.jobs;
    deleted := 0;
    WithoutNone(c.jobs);
    assert NamesOf(group[..0]) == {};
    if jobID == "" {
      return 0, false;
    }
    if lock.LockError? {
      return 0, true;
    }
    if lock.Locked? {
      return 0, false;
    }
    if faults.list {
      return 0, true;
    }
    if |group| == 0 {
      return 0, false;
    }
    for i := 0 to |group|
      invariant deleted == i
      invariant c.jobs == Without(before, NamesOf(group[..i]))
      invariant forall k :: 0 <= k < i ==> group[k].name !in faults.deletes
    {
      if group[i].name in faults.deletes {
        return deleted, true;
      }
      WithoutMore(before, NamesOf(group[..i]), {group[i].name});
      assert NamesOf(group[..i + 1]) == NamesOf(group[..i]) + {group[i].name} by {
        assert group[..i + 1] == group[..i] + [group[i]];
      }
      c.DeleteJob(group[i].name);
      deleted := deleted + 1;
    }
    return deleted, false;
  }
}
