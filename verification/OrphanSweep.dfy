/** The orphan runner sweep as one undisturbed pass (internal/reconciler/orphan_runners.go): what it
    removes, exactly. How it interleaves with dispatches is the subject of OrphanSafety. */
module OrphanSweep {
  import opened Options
  import opened Names
  import opened Repos
  import opened JobCleaner
  import LeaseLock
  import P = Protocol

  /** A runner registration; GitHub may not report a creation time. */
  datatype Registration = Registration(id: int, name: string, created: Option<int>)

  /** What the API server and GitHub answer during the pass: lock checks and Job listings by job id,
      the runner listings and the deletions that fail. */
  datatype Env = Env(
    locks: map<string, LockReply>, jobs: set<string>, jobErrors: set<string>,
    listErrors: set<Repo>, deleteErrors: set<int>)

  predicate LockedID(env: Env, id: string) { id in env.locks && env.locks[id].Locked? }

  /** Old, unlocked as far as is known, known to have no Job, and named after a job id. */
  predicate Orphan(env: Env, r: Registration, now: int, grace: int) {
    var id := ParseJobIDFromRunnerName(r.name);
    && id.Some?
    && r.created.Some? && now - r.created.value >= grace
    && !LockedID(env, id.value)
    && id.value !in env.jobErrors && id.value !in env.jobs
  }

  /** No two runners of a repository have the same id. */
  ghost predicate DistinctIds(rs: seq<Registration>) {
    forall a, b :: a in rs && b in rs && a.id == b.id ==> a == b
  }

  function Drop(rs: seq<Registration>, id: int): seq<Registration> {
    if rs == [] then []
    else if rs[0].id == id then Drop(rs[1..], id)
    else [rs[0]] + Drop(rs[1..], id)
  }

  lemma {:induction false} DropMembers(rs: seq<Registration>, id: int, r: Registration)
    ensures r in Drop(rs, id) <==> r in rs && r.id != id
  {
    if rs != [] {
      DropMembers(rs[1..], id, r);
      assert rs == [rs[0]] + rs[1..];
    }
  }

  class GitHub {
    var runners: map<Repo, seq<Registration>>

    constructor (runners: map<Repo, seq<Registration>>)
      ensures this.runners == runners && forall repo :: repo in runners ==> Of(repo) == runners[repo]
    {
      this.runners := runners;
    }

    function Of(repo: Repo): seq<Registration>
      reads this
    {
      if repo in runners then runners[repo] else []
    }

    method DeleteRunner(repo: Repo, id: int)
      modifies this
      ensures forall r :: r in Of(repo) <==> r in old(Of(repo)) && r.id != id
      ensures forall other :: other != repo ==> Of(other) == old(Of(other))
    {
      forall r ensures r in Drop(Of(repo), id) <==> r in Of(repo) && r.id != id {
        DropMembers(Of(repo), id, r);
      }
      runners := runners[repo := Drop(Of(repo), id)];
    }
  }

  class OrphanRunnerSweep {
    const repos: seq<string>
    const grace: int

    constructor (repos: seq<string>, grace: int)
      ensures this.repos == repos && this.grace == grace
    {
      this.repos, this.grace := repos, grace;
    }

    /** Deletes the runner if it is an orphan and the deletion does not fail. */
    method EvaluateRunner(gh: GitHub, env: Env, repo: Repo, runner: Registration, now: int)
      modifies gh
      ensures var gone := Orphan(env, runner, now, grace) && runner.id !in env.deleteErrors;
              forall r :: r in gh.Of(repo) <==> r in old(gh.Of(repo)) && !(gone && r.id == runner.id)
      ensures forall other :: other != repo ==> gh.Of(other) == old(gh.Of(other))
    {
      if !(RUNNER_PREFIX <= runner.name) {
        return;
      }
      var jobID := ParseJobIDFromRunnerName(runner.name);
      if jobID.None? {
        return;
      }
      if runner.created.None? || now - runner.created.value < grace {
        return;
      }
      if LockedID(env, jobID.value) {      // a failed check lets the runner through
        return;
      }
      if jobID.value in env.jobErrors || jobID.value in env.jobs {
        return;
      }
      if runner.id in env.deleteErrors {
        return;
      }
      gh.DeleteRunner(repo, runner.id);
    }

    /** One repository: exactly the orphans are gone whose deletion did not fail. */
    method SweepRepo(gh: GitHub, env: Env, repo: Repo, now: int)
      requires DistinctIds(gh.Of(repo))
      modifies gh
      ensures Swept(env, old(gh.Of(repo)), gh.Of(repo), |old(gh.Of(repo))|, now, grace)
      ensures forall other :: other != repo ==> gh.Of(other) == old(gh.Of(other))
    {
      var runners := gh.Of(repo);
      for i := 0 to |runners|
        invariant Swept(env, runners, gh.Of(repo), i, now, grace)
        invariant forall other :: other != repo ==> gh.Of(other) == old(gh.Of(other))
      {
        EvaluateRunner(gh, env, repo, runners[i], now);
        assert runners[..i + 1] == runners[..i] + [runners[i]];
      }
    }

    /** A pass over all repositories. Nothing but the orphans of the configured repositories is
        removed, and all of those are that can be listed and deleted. */
    method SweepOnce(gh: GitHub, env: Env, now: int)
      requires forall repo :: DistinctIds(gh.Of(repo))
      modifies gh
      ensures forall repo, r :: r in gh.Of(repo) <==> r in old(gh.Of(repo)) && !Reaped(repos, env, repo, r, now, grace)
    {
      for i := 0 to |repos|
        invariant forall repo, r :: r in gh.Of(repo) <==> r in old(gh.Of(repo)) && !Reaped(repos[..i], env, repo, r, now, grace)
      {
        forall repo ensures Configured(repos[..i + 1], repo) <==> Configured(repos[..i], repo) || SplitRepo(repos[i]) == Some(repo) {
          ConfiguredStep(repos, i, repo);
        }
        var repo := SplitRepo(repos[i]);
        if repo.None? || repo.value in env.listErrors {
          continue;
        }
        SweepRepo(gh, env, repo.value, now);
      }
      assert repos[..|repos|] == repos;
    }
  }

  ghost predicate Configured(repos: seq<string>, repo: Repo) {
    exists i :: 0 <= i < |repos| && SplitRepo(repos[i]) == Some(repo)
  }

  lemma ConfiguredStep(repos: seq<string>, i: nat, repo: Repo)
    requires i < |repos|
    ensures Configured(repos[..i + 1], repo) <==> Configured(repos[..i], repo) || SplitRepo(repos[i]) == Some(repo)
  {
    assert repos[..i + 1][i] == repos[i];
    assert forall k :: 0 <= k < i ==> repos[..i + 1][k] == repos[k] && repos[..i][k] == repos[k];
  }

  /** An orphan of a configured repository whose runners can be listed, with nothing keeping it. */
  ghost predicate Reaped(repos: seq<string>, env: Env, repo: Repo, r: Registration, now: int, grace: int) {
    Configured(repos, repo) && repo !in env.listErrors && Orphan(env, r, now, grace) && r.id !in env.deleteErrors
  }

  /** After looking at the first n runners. */
  ghost predicate Swept(env: Env, before: seq<Registration>, after: seq<Registration>, n: nat, now: int, grace: int)
    requires n <= |before|
  {
    forall r :: r in after <==> r in before && !(r in before[..n] && Orphan(env, r, now, grace) && r.id !in env.deleteErrors)
  }

  /** The runner is old enough, and nothing known of the job keeps it: no lock, no Job, no failed Job
      listing. */
  predicate Unneeded(env: Env, r: Registration, job: string, now: int, grace: int) {
    && r.created.Some? && now - r.created.value >= grace
    && !(job in env.locks && env.locks[job] == Locked)
    && job !in env.jobs && job !in env.jobErrors
  }

  /** What a pass removes, whatever fails in it: exactly the runners of the configured repositories that
      could be listed, named "ghs-" run "-" job after an unneeded job, whose deletion did not fail. */
  lemma ReapedExact(repos: seq<string>, env: Env, repo: Repo, r: Registration, now: int, grace: int)
    ensures Reaped(repos, env, repo, r, now, grace) <==>
            && Configured(repos, repo) && repo !in env.listErrors && r.id !in env.deleteErrors
            && exists run: string, job: string ::
                 && run != "" && job != "" && '-' !in job && r.name == "ghs-" + run + "-" + job
                 && Unneeded(env, r, job, now, grace)
  {
    var id := ParseJobIDFromRunnerName(r.name);
    if id.Some? {
      ParseExact(r.name, id.value);
    }
    forall run: string, job: string | run != "" && job != "" && '-' !in job && r.name == "ghs-" + run + "-" + job
      ensures id == Some(job)
    {
      ParseExact(r.name, job);
    }
  }

  /** A pass removes the runner a dispatch left behind, unless it is young, its job is locked, has a Job
      or may have one, or its repository cannot be listed or it cannot be deleted. */
  lemma LeftoversAreReaped(repos: seq<string>, env: Env, repo: Repo, r: Registration, k: Key, now: int, grace: int)
    requires Configured(repos, repo) && IdKey(k) && r.name == RunnerName(k)
    ensures Reaped(repos, env, repo, r, now, grace) <==>
            repo !in env.listErrors && Unneeded(env, r, k.job, now, grace) && r.id !in env.deleteErrors
  {
    ParseRunnerName(k);
  }

  /** What the checks of the pass answer for the job is what the cluster has, as far as they do not fail. */
  ghost predicate Answers(env: Env, s: P.State, job: string) {
    && (!(job in env.locks && env.locks[job] == LockError) ==>
          (LockedID(env, job) <==> job in s.leases && LeaseLock.HolderActive(s.leases[job], s.ttl, s.now)))
    && (job !in env.jobErrors ==> (job in env.jobs <==> P.HasJob(s, job)))
  }

  /** The undisturbed pass decides as the interleaved one does: a runner is an orphan exactly if the
      sweep of the protocol picks it and its two checks, failing or not, lead to its removal. */
  lemma SameDecision(env: Env, s: P.State, v: P.Sweep, id: nat, r: Registration)
    requires id in v.listed && v.listed[id].name == r.name
    requires v.listed[id].created.Some? <==> r.created.Some?
    requires r.created.Some? ==> v.listed[id].created.value == r.created.value
    requires ParseJobIDFromRunnerName(r.name).Some? && Answers(env, s, ParseJobIDFromRunnerName(r.name).value)
    ensures var job := ParseJobIDFromRunnerName(r.name).value;
            Orphan(env, r, v.passNow, s.grace) <==>
            && P.OldEnough(v.listed[id], v.passNow, s.grace)
            && P.StageAfter(s, v.(stage := P.CheckLock(id)), job, !(job in env.locks && env.locks[job] == LockError)) == P.CheckJobs(id)
            && P.StageAfter(s, v.(stage := P.CheckJobs(id)), job, job !in env.jobErrors) == P.Remove(id)
  {
  }
}
