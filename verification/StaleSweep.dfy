/** The stale Job sweep (internal/reconciler/stale_job_sweep.go): which Jobs it finds stale, its
    cache of GitHub answers, and what one pass leaves. Times are nanoseconds. */
module StaleSweep {
  import opened Options
  import opened Pods
  import opened JobCleaner
  import opened Decimal

  const LABEL_OWNER := "gha-scheduler.owner"
  const LABEL_REPO := "gha-scheduler.repo"

  datatype Config = Config(cleanupGrace: int, stuck: int, maxRuntime: int, cacheTTL: int)

  /** A GitHub workflow job: its status and, if reported, when it completed. */
  datatype GhJob = GhJob(status: string, completedAt: Option<int>)

  datatype Entry = Entry(job: GhJob, fetchedAt: int)

  /** What the API server, GitHub and the clock say while one Job is being looked at: the lock
      check, the pods (None if listing fails), the clock at the cache lookup, when and what GitHub
      answers (None if the request fails), the clock when the answer is cached; and, if the Job is
      stale, the cleaner's own lock check and which of its calls fail. */
  datatype Turn = Turn(
    lock: LockReply, pods: Option<seq<Pod>>, clock: int, asked: int, answer: Option<GhJob>, stored: int,
    again: LockReply, faults: Faults)

  function Label(j: K8sJob, key: string): string { if key in j.labels then j.labels[key] else "" }

  /** strconv.ParseInt(s, 10, 64). */
  function GhID(s: string): Option<int> {
    var v := ParseInt(s);
    if v.Some? && MIN_INT64 <= v.value <= MAX_INT64 then v else None
  }

  // ----- verdicts -----

  function PodProblem(pod: Pod, age: int, stuck: int): string {
    if pod.phase == "Succeeded" || pod.phase == "Failed" then "pod_terminal"
    else if PodRunnerCleanupReason(pod) != "" then PodRunnerCleanupReason(pod)
    else if age < stuck then ""
    else if pod.phase == "Pending" then "stuck_pending"
    else if exists i :: 0 <= i < |pod.statuses| && pod.statuses[i].state.waiting.Some? && Stuck(pod.statuses[i].state.waiting.value)
    then "stuck_container"
    else ""
  }

  /** The problem of the first pod that has one. */
  function FirstProblem(pods: seq<Pod>, age: int, stuck: int): string {
    if pods == [] then ""
    else if PodProblem(pods[0], age, stuck) != "" then PodProblem(pods[0], age, stuck)
    else FirstProblem(pods[1..], age, stuck)
  }

  function PodVerdict(pods: seq<Pod>, age: int, stuck: int): string {
    if pods == [] then if age >= stuck then "no_pod" else "" else FirstProblem(pods, age, stuck)
  }

  function GithubVerdict(cfg: Config, j: K8sJob, g: GhJob, now: int): string {
    if g.status != "completed" then ""
    else
      var completedAt := if g.completedAt.Some? then g.completedAt.value else j.created;
      if now - completedAt < cfg.cleanupGrace then "" else "gh_completed"
  }

  /** The Job names a GitHub job to ask about. */
  predicate Traceable(j: K8sJob) { Label(j, LABEL_OWNER) != "" && Label(j, LABEL_REPO) != "" && GhID(JobID(j)).Some? }

  /** Everything but the GitHub status says the Job is fine, or nothing can be said. */
  predicate AsksGithub(cfg: Config, j: K8sJob, t: Turn, now: int) {
    && JobID(j) != "" && !t.lock.Locked?
    && now - j.created < cfg.maxRuntime
    && t.pods.Some? && PodVerdict(t.pods.value, now - j.created, cfg.stuck) == ""
  }

  /** The verdict if the GitHub status, should it matter, is `g` (None if it cannot be had). */
  function Verdict(cfg: Config, j: K8sJob, t: Turn, g: Option<GhJob>, now: int): string {
    var age := now - j.created;
    if JobID(j) == "" || t.lock.Locked? then ""
    else if age >= cfg.maxRuntime then "max_runtime"
    else if t.pods.None? then ""
    else if PodVerdict(t.pods.value, age, cfg.stuck) != "" then PodVerdict(t.pods.value, age, cfg.stuck)
    else if Traceable(j) && g.Some? then GithubVerdict(cfg, j, g.value, now)
    else ""
  }

  // ----- verdicts, in terms of what they are for -----

  /** What is wrong with a pod, whatever its age, or at that age: it is over, its runner is to be cleaned
      up, or it is still pending, or has a container that waits in vain, after so long. */
  predicate Over(pod: Pod) { pod.phase in ["Succeeded", "Failed"] }

  predicate Hangs(pod: Pod) {
    pod.phase == "Pending" || exists i :: 0 <= i < |pod.statuses| && WaitsInVain(pod.statuses[i].state)
  }

  ghost predicate Bad(pod: Pod, age: int, stuck: int) {
    || Over(pod)
    || (exists s :: RunnerIn(pod, s) && (s.terminated.Some? || WaitsInVain(s)))
    || (age >= stuck && Hangs(pod))
  }

  /** Which of them is reported, in this order. */
  lemma PodProblemExact(pod: Pod, age: int, stuck: int)
    ensures PodProblem(pod, age, stuck) ==
            if Over(pod) then "pod_terminal"
            else if exists s :: RunnerIn(pod, s) && s.terminated.Some? then "runner_terminated"
            else if exists s :: RunnerIn(pod, s) && WaitsInVain(s) then "runner_stuck"
            else if age >= stuck && pod.phase == "Pending" then "stuck_pending"
            else if age >= stuck && Hangs(pod) then "stuck_container"
            else ""
    ensures PodProblem(pod, age, stuck) != "" <==> Bad(pod, age, stuck)
  {
    CleanupExact(pod);
    assert forall i :: 0 <= i < |pod.statuses| && pod.statuses[i].state.waiting.Some? ==>
      (Stuck(pod.statuses[i].state.waiting.value) <==> WaitsInVain(pod.statuses[i].state));
  }

  /** The verdict on the pods is that of the first bad one. */
  lemma {:induction false} FirstProblemExact(pods: seq<Pod>, age: int, stuck: int)
    ensures FirstProblem(pods, age, stuck) != "" <==> exists i :: 0 <= i < |pods| && Bad(pods[i], age, stuck)
    ensures forall i :: 0 <= i < |pods| && Bad(pods[i], age, stuck) && (forall k :: 0 <= k < i ==> !Bad(pods[k], age, stuck))
              ==> FirstProblem(pods, age, stuck) == PodProblem(pods[i], age, stuck)
  {
    if pods != [] {
      PodProblemExact(pods[0], age, stuck);
      FirstProblemExact(pods[1..], age, stuck);
      assert forall i :: 0 < i < |pods| ==> pods[i] == pods[1..][i - 1];
    }
  }

  /** GitHub says the job completed, and the grace period is over, counted from the Job's creation if the
      completion has no time. */
  predicate DoneOnGithub(cfg: Config, j: K8sJob, g: GhJob, now: int) {
    g.status == "completed" && now >= cfg.cleanupGrace + if g.completedAt.Some? then g.completedAt.value else j.created
  }

  /** The labels name owner, repository and a 64-bit job id. */
  ghost predicate NamesGithubJob(j: K8sJob) {
    && LABEL_OWNER in j.labels && j.labels[LABEL_OWNER] != ""
    && LABEL_REPO in j.labels && j.labels[LABEL_REPO] != ""
    && LABEL_GH_JOB in j.labels
    && exists id :: ParseInt(j.labels[LABEL_GH_JOB]) == Some(id) && -0x8000_0000_0000_0000 <= id < 0x8000_0000_0000_0000
  }

  /** There is no pod after so long, or a bad one. */
  ghost predicate PodsBad(pods: seq<Pod>, age: int, stuck: int) {
    (pods == [] && age >= stuck) || exists i :: 0 <= i < |pods| && Bad(pods[i], age, stuck)
  }

  lemma PodVerdictExact(pods: seq<Pod>, age: int, stuck: int)
    ensures PodVerdict(pods, age, stuck) != "" <==> PodsBad(pods, age, stuck)
    ensures pods == [] && age >= stuck ==> PodVerdict(pods, age, stuck) == "no_pod"
    ensures PodVerdict(pods, age, stuck) != "gh_completed"
  {
    FirstProblemExact(pods, age, stuck);
    FirstProblemNames(pods, age, stuck);
  }

  lemma {:induction false} FirstProblemNames(pods: seq<Pod>, age: int, stuck: int)
    ensures FirstProblem(pods, age, stuck) != "gh_completed"
  {
    if pods != [] {
      PodProblemExact(pods[0], age, stuck);
      FirstProblemNames(pods[1..], age, stuck);
    }
  }

  lemma GithubExact(cfg: Config, j: K8sJob, g: GhJob, now: int)
    ensures Traceable(j) <==> NamesGithubJob(j)
    ensures GithubVerdict(cfg, j, g, now) == if DoneOnGithub(cfg, j, g, now) then "gh_completed" else ""
  {
    if NamesGithubJob(j) {
      var id :| ParseInt(j.labels[LABEL_GH_JOB]) == Some(id) && -0x8000_0000_0000_0000 <= id < 0x8000_0000_0000_0000;
      assert GhID(JobID(j)) == Some(id);
    }
  }

  /** The local reasons: too old; or its pods, if they are known. */
  ghost predicate StaleLocally(cfg: Config, j: K8sJob, t: Turn, now: int) {
    now - j.created >= cfg.maxRuntime || (t.pods.Some? && PodsBad(t.pods.value, now - j.created, cfg.stuck))
  }

  /** When a Job is found stale, and when it is not: it has an id, its id is not known to be locked, and
      there is a local reason, or its pods are known and fine and GitHub says that it is done. */
  lemma StaleExact(cfg: Config, j: K8sJob, t: Turn, g: Option<GhJob>, now: int)
    ensures Verdict(cfg, j, t, g, now) != "" <==>
            && LABEL_GH_JOB in j.labels && j.labels[LABEL_GH_JOB] != "" && t.lock != Locked
            && (|| StaleLocally(cfg, j, t, now)
                || (t.pods.Some? && NamesGithubJob(j) && g.Some? && DoneOnGithub(cfg, j, g.value, now)))
    ensures Verdict(cfg, j, t, g, now) == "gh_completed" ==> !StaleLocally(cfg, j, t, now)
    ensures now - j.created >= cfg.maxRuntime && Verdict(cfg, j, t, g, now) != "" ==> Verdict(cfg, j, t, g, now) == "max_runtime"
  {
    if t.pods.Some? {
      PodVerdictExact(t.pods.value, now - j.created, cfg.stuck);
    }
    if g.Some? {
      GithubExact(cfg, j, g.value, now);
    }
  }

  // ----- the cache -----

  function Cached(cfg: Config, cache: map<string, Entry>, id: string, clock: int): Option<GhJob> {
    if id !in cache || clock - cache[id].fetchedAt > cfg.cacheTTL then None else Some(cache[id].job)
  }

  /** The status the sweep goes by. */
  function Answer(cfg: Config, cache: map<string, Entry>, j: K8sJob, t: Turn): Option<GhJob> {
    var hit := Cached(cfg, cache, JobID(j), t.clock);
    if hit.Some? then hit else t.answer
  }

  /** The cache after the status was needed. */
  function Remember(cfg: Config, cache: map<string, Entry>, j: K8sJob, t: Turn): map<string, Entry> {
    if Traceable(j) && Cached(cfg, cache, JobID(j), t.clock).None? && t.answer.Some?
    then cache[JobID(j) := Entry(t.answer.value, t.stored)]
    else cache
  }

  function CacheAfter(cfg: Config, cache: map<string, Entry>, j: K8sJob, t: Turn, now: int): map<string, Entry> {
    if AsksGithub(cfg, j, t, now) then Remember(cfg, cache, j, t) else cache
  }

  /** A look asks GitHub. */
  ghost predicate Asks(cfg: Config, cache: map<string, Entry>, j: K8sJob, t: Turn, now: int) {
    && LABEL_GH_JOB in j.labels && j.labels[LABEL_GH_JOB] != "" && t.lock != Locked
    && !StaleLocally(cfg, j, t, now) && t.pods.Some? && NamesGithubJob(j)
    && !(j.labels[LABEL_GH_JOB] in cache && t.clock <= cache[j.labels[LABEL_GH_JOB]].fetchedAt + cfg.cacheTTL)
  }

  /** The answer of a look that asks, if there is one, is all that is added to the cache. */
  lemma CacheExact(cfg: Config, cache: map<string, Entry>, j: K8sJob, t: Turn, now: int)
    ensures CacheAfter(cfg, cache, j, t, now) ==
            if Asks(cfg, cache, j, t, now) && t.answer.Some? then cache[j.labels[LABEL_GH_JOB] := Entry(t.answer.value, t.stored)] else cache
    ensures Asks(cfg, cache, j, t, now) ==> Answer(cfg, cache, j, t) == t.answer
  {
    GithubExact(cfg, j, GhJob("", None), now);
    if t.pods.Some? {
      PodVerdictExact(t.pods.value, now - j.created, cfg.stuck);
    }
  }

  /** And until the time to live is over it is what the Job is judged by. */
  lemma AnswerIsKept(cfg: Config, cache: map<string, Entry>, j: K8sJob, t: Turn, now: int, t': Turn)
    requires Asks(cfg, cache, j, t, now) && t.answer.Some? && t'.clock <= t.stored + cfg.cacheTTL
    ensures Answer(cfg, CacheAfter(cfg, cache, j, t, now), j, t') == t.answer
  {
    CacheExact(cfg, cache, j, t, now);
  }

  // ----- one pass -----

  /** The verdicts of a pass over the listed Jobs from the i-th on, and the cache it leaves. */
  function Verdicts(cfg: Config, listed: seq<K8sJob>, turns: seq<Turn>, i: nat, cache: map<string, Entry>, now: int): (r: seq<string>)
    requires i <= |listed| <= |turns|
    ensures |r| == |listed| - i
    decreases |listed| - i
  {
    if i == |listed| then []
    else
      [Verdict(cfg, listed[i], turns[i], Answer(cfg, cache, listed[i], turns[i]), now)]
      + Verdicts(cfg, listed, turns, i + 1, CacheAfter(cfg, cache, listed[i], turns[i], now), now)
  }

  function CacheAfterPass(cfg: Config, listed: seq<K8sJob>, turns: seq<Turn>, i: nat, cache: map<string, Entry>, now: int): map<string, Entry>
    requires i <= |listed| <= |turns|
    decreases |listed| - i
  {
    if i == |listed| then cache
    else CacheAfterPass(cfg, listed, turns, i + 1, CacheAfter(cfg, cache, listed[i], turns[i], now), now)
  }

  /** The Jobs with the id label, whatever its value. */
  function Listed(jobs: seq<K8sJob>): (r: seq<K8sJob>)
    ensures |r| <= |jobs|
  {
    if jobs == [] then []
    else if LABEL_GH_JOB in jobs[0].labels then [jobs[0]] + Listed(jobs[1..])
    else Listed(jobs[1..])
  }

  /** The Jobs with the label, each as often as the cluster has it, and no others. */
  lemma {:induction false} ListedExact(jobs: seq<K8sJob>)
    ensures forall j :: multiset(Listed(jobs))[j] == if LABEL_GH_JOB in j.labels then multiset(jobs)[j] else 0
  {
    if jobs != [] {
      ListedExact(jobs[1..]);
      assert jobs == [jobs[0]] + jobs[1..];
    }
  }

  lemma ListedCons(j: K8sJob, rest: seq<K8sJob>)
    ensures Listed([j] + rest) == (if LABEL_GH_JOB in j.labels then [j] else []) + Listed(rest)
  {
    assert ([j] + rest)[1..] == rest;
  }

  /** In the order of the cluster. */
  lemma {:induction false} ListedInOrder(a: seq<K8sJob>, b: seq<K8sJob>)
    ensures Listed(a + b) == Listed(a) + Listed(b)
  {
    if a == [] {
      assert a + b == b;
    } else {
      var j, rest := a[0], a[1..];
      ListedInOrder(rest, b);
      ListedCons(j, rest);
      ListedCons(j, rest + b);
      assert a == [j] + rest && a + b == [j] + (rest + b);
    }
  }

  /** One of the first n listed Jobs was found stale, and the id is its id. */
  ghost predicate Flagged(listed: seq<K8sJob>, reasons: seq<string>, id: string, n: nat)
    requires n <= |listed| && n <= |reasons|
  {
    exists i :: 0 <= i < n && reasons[i] != "" && JobID(listed[i]) == id
  }

  /** The lock status is the same at both checks of a Job, and nothing fails. */
  predicate Calm(t: Turn) { !t.lock.LockError? && t.again == t.lock && t.faults == Faults(false, {}) }

  predicate FailureFree(turns: seq<Turn>) { forall i :: 0 <= i < |turns| ==> Calm(turns[i]) }

  class StaleJobSweep {
    const cfg: Config
    var ghCache: map<string, Entry>

    constructor (cfg: Config)
      ensures this.cfg == cfg && ghCache == map[]
    {
      this.cfg := cfg;
      ghCache := map[];
    }

    method PodReason(pods: seq<Pod>, age: int) returns (reason: string)
      ensures reason == PodVerdict(pods, age, cfg.stuck)
    {
      if |pods| == 0 {
        return if age >= cfg.stuck then "no_pod" else "";
      }
      for i := 0 to |pods|
        invariant FirstProblem(pods, age, cfg.stuck) == FirstProblem(pods[i..], age, cfg.stuck)
      {
        assert pods[i..][1..] == pods[i + 1..];
        var pod := pods[i];
        if pod.phase == "Succeeded" || pod.phase == "Failed" {
          return "pod_terminal";
        }
        reason := PodRunnerCleanupReason(pod);
        if reason != "" {
          return;
        }
        if age < cfg.stuck {
          continue;
        }
        if pod.phase == "Pending" {
          return "stuck_pending";
        }
        for k := 0 to |pod.statuses|
          invariant forall l :: 0 <= l < k ==> !(pod.statuses[l].state.waiting.Some? && Stuck(pod.statuses[l].state.waiting.value))
        {
          var waiting := pod.statuses[k].state.waiting;
          if waiting.Some? && Stuck(waiting.value) {
            return "stuck_container";
          }
        }
      }
      return "";
    }

    method GithubReason(j: K8sJob, t: Turn, now: int) returns (reason: string)
      modifies this
      ensures ghCache == Remember(cfg, old(ghCache), j, t)
      ensures var g := Answer(cfg, old(ghCache), j, t);
              reason == if Traceable(j) && g.Some? then GithubVerdict(cfg, j, g.value, now) else ""
    {
      if !Traceable(j) {
        return "";
      }
      var g := Cached(cfg, ghCache, JobID(j), t.clock);
      if g.None? {
        g := t.answer;
        if g.None? {
          return "";
        }
        ghCache := ghCache[JobID(j) := Entry(g.value, t.stored)];
      }
      return GithubVerdict(cfg, j, g.value, now);
    }

    method EvaluateJob(j: K8sJob, t: Turn, now: int) returns (reason: string)
      modifies this
      ensures ghCache == CacheAfter(cfg, old(ghCache), j, t, now)
      ensures reason == Verdict(cfg, j, t, Answer(cfg, old(ghCache), j, t), now)
    {
      var jobID := JobID(j);
      if jobID == "" {
        return "";
      }
      if t.lock.Locked? {                  // a failed check lets the Job through
        return "";
      }
      var age := now - j.created;
      if age >= cfg.maxRuntime {
        return "max_runtime";
      }
      if t.pods.None? {
        return "";
      }
      reason := PodReason(t.pods.value, age);
      if reason != "" {
        return;
      }
      reason := GithubReason(j, t, now);
    }

    /** The verdict on the i-th listed Job. */
    method Judge(listed: seq<K8sJob>, turns: seq<Turn>, i: nat, now: int) returns (reason: string)
      requires i < |listed| <= |turns|
      modifies this
      ensures Verdicts(cfg, listed, turns, i, old(ghCache), now) == [reason] + Verdicts(cfg, listed, turns, i + 1, ghCache, now)
      ensures CacheAfterPass(cfg, listed, turns, i, old(ghCache), now) == CacheAfterPass(cfg, listed, turns, i + 1, ghCache, now)
      ensures reason != "" ==> JobID(listed[i]) != "" && !turns[i].lock.Locked?
    {
      reason := EvaluateJob(listed[i], turns[i], now);
    }

    /** The i-th listed Job: its verdict, added to `reasons`, and, if it is stale, the deletion of its group. */
    method Handle(c: Cluster, listed: seq<K8sJob>, turns: seq<Turn>, i: nat, now: int, reasons: seq<string>)
      returns (more: seq<string>, ghost deleted: nat)
      requires i == |reasons| < |listed| <= |turns|
      modifies this, c
      ensures |more| == i + 1 && more[..i] == reasons
      ensures more + Verdicts(cfg, listed, turns, i + 1, ghCache, now) == reasons + Verdicts(cfg, listed, turns, i, old(ghCache), now)
      ensures CacheAfterPass(cfg, listed, turns, i, old(ghCache), now) == CacheAfterPass(cfg, listed, turns, i + 1, ghCache, now)
      ensures Cleaned(old(c.jobs), c.jobs, JobID(listed[i]), more[i], deleted, Calm(turns[i]))
    {
      var reason := Judge(listed, turns, i, now);
      more := reasons + [reason];
      deleted := 0;
      if reason != "" {
        var n, failed := CleanupByJobID(c, JobID(listed[i]), turns[i].again, turns[i].faults);
        deleted := n;
      }
    }

    /** One pass: lists once, then looks at the listed Jobs one by one and has the group of every
        stale one deleted. `reasons` are the verdicts. Only Jobs of an id found stale are ever
        deleted; if nothing fails, all of them are, and all others stay. */
    method SweepOnce(c: Cluster, listFails: bool, now: int, turns: seq<Turn>) returns (failed: bool, reasons: seq<string>)
      requires Distinct(c.jobs) && |c.jobs| <= |turns|
      modifies this, c
      ensures failed == listFails
      ensures listFails ==> c.jobs == old(c.jobs) && ghCache == old(ghCache) && reasons == []
      ensures !listFails ==>
                && reasons == Verdicts(cfg, Listed(old(c.jobs)), turns, 0, old(ghCache), now)
                && ghCache == CacheAfterPass(cfg, Listed(old(c.jobs)), turns, 0, old(ghCache), now)
                && Pruned(old(c.jobs), c.jobs, Listed(old(c.jobs)), reasons, |reasons|, FailureFree(turns))
      // in terms of the Jobs: what is gone was found stale, and what is too old is gone or was locked
      ensures !listFails ==> forall j :: j in old(c.jobs) && j !in c.jobs ==> InStaleGroup(old(c.jobs), reasons, j)
      ensures !listFails && FailureFree(turns) ==> forall j :: j in c.jobs && TooOld(cfg, j, now) ==> WasLocked(old(c.jobs), turns, j)
    {
      reasons := [];
      if listFails {
        return true, reasons;
      }
      var listed := Listed(c.jobs);
      ghost var before, all, last := c.jobs, Verdicts(cfg, listed, turns, 0, ghCache, now), CacheAfterPass(cfg, listed, turns, 0, ghCache, now);
      for i := 0 to |listed|
        invariant |reasons| == i
        invariant all == reasons + Verdicts(cfg, listed, turns, i, ghCache, now)
        invariant last == CacheAfterPass(cfg, listed, turns, i, ghCache, now)
        invariant Pruned(before, c.jobs, listed, reasons, i, FailureFree(turns))
      {
        ghost var jobs := c.jobs;
        ghost var deleted: nat;
        reasons, deleted := Handle(c, listed, turns, i, now, reasons);
        PrunedStep(before, jobs, c.jobs, listed, reasons, deleted, FailureFree(turns));
      }
      GoneForReason(cfg, before, c.jobs, turns, old(ghCache), now, reasons, FailureFree(turns));
      if FailureFree(turns) {
        TooOldIsGone(cfg, before, c.jobs, turns, old(ghCache), now, reasons);
      }
      failed := false;
    }
  }

  /** A Job of the same id was found stale. */
  ghost predicate InStaleGroup(before: seq<K8sJob>, reasons: seq<string>, j: K8sJob) {
    LABEL_GH_JOB in j.labels && j.labels[LABEL_GH_JOB] != ""
    && exists i :: 0 <= i < |reasons| && i < |Listed(before)| && reasons[i] != "" && Listed(before)[i] in before
         && LABEL_GH_JOB in Listed(before)[i].labels && Listed(before)[i].labels[LABEL_GH_JOB] == j.labels[LABEL_GH_JOB]
  }

  /** It has an id and is older than the maximal runtime. */
  predicate TooOld(cfg: Config, j: K8sJob, now: int) {
    LABEL_GH_JOB in j.labels && j.labels[LABEL_GH_JOB] != "" && now - j.created >= cfg.maxRuntime
  }

  /** When it was looked at its id was locked. */
  ghost predicate WasLocked(before: seq<K8sJob>, turns: seq<Turn>, j: K8sJob) {
    exists i :: 0 <= i < |turns| && i < |Listed(before)| && Listed(before)[i] == j && turns[i].lock == Locked
  }

  /** What the i-th verdict of a pass says: only Jobs with an id are found stale, and those that are
      too old are, unless locked. */
  lemma ReasonMeans(cfg: Config, listed: seq<K8sJob>, turns: seq<Turn>, i: nat, cache: map<string, Entry>, now: int)
    requires i < |listed| <= |turns|
    ensures var reason := Verdicts(cfg, listed, turns, 0, cache, now)[i];
            && (reason != "" ==> LABEL_GH_JOB in listed[i].labels && listed[i].labels[LABEL_GH_JOB] != "")
            && (TooOld(cfg, listed[i], now) && turns[i].lock != Locked ==> reason != "")
  {
    VerdictAt(cfg, listed, turns, 0, i, cache, now);
    StaleExact(cfg, listed[i], turns[i], Answer(cfg, CacheBefore(cfg, listed, turns, 0, i, cache, now), listed[i], turns[i]), now);
  }

  lemma ListedMembers(jobs: seq<K8sJob>)
    ensures forall j :: j in Listed(jobs) <==> j in jobs && LABEL_GH_JOB in j.labels
  {
    ListedExact(jobs);
    forall j ensures j in Listed(jobs) <==> j in jobs && LABEL_GH_JOB in j.labels {
      assert j in Listed(jobs) <==> j in multiset(Listed(jobs));
      assert j in jobs <==> j in multiset(jobs);
    }
  }

  lemma GoneForReason(cfg: Config, before: seq<K8sJob>, after: seq<K8sJob>, turns: seq<Turn>, cache: map<string, Entry>, now: int,
                      reasons: seq<string>, complete: bool)
    requires |Listed(before)| <= |turns| && reasons == Verdicts(cfg, Listed(before), turns, 0, cache, now)
    requires Pruned(before, after, Listed(before), reasons, |reasons|, complete)
    ensures forall j :: j in before && j !in after ==> InStaleGroup(before, reasons, j)
  {
    ListedMembers(before);
    forall j | j in before && j !in after ensures InStaleGroup(before, reasons, j) {
      var i :| 0 <= i < |reasons| && reasons[i] != "" && JobID(Listed(before)[i]) == JobID(j);
      ReasonMeans(cfg, Listed(before), turns, i, cache, now);
    }
  }

  lemma TooOldIsGone(cfg: Config, before: seq<K8sJob>, after: seq<K8sJob>, turns: seq<Turn>, cache: map<string, Entry>, now: int,
                     reasons: seq<string>)
    requires |Listed(before)| <= |turns| && reasons == Verdicts(cfg, Listed(before), turns, 0, cache, now)
    requires Pruned(before, after, Listed(before), reasons, |reasons|, true)
    ensures forall j :: j in after && TooOld(cfg, j, now) ==> WasLocked(before, turns, j)
  {
    ListedMembers(before);
    forall j | j in after && TooOld(cfg, j, now) ensures WasLocked(before, turns, j) {
      var i :| 0 <= i < |Listed(before)| && Listed(before)[i] == j;
      ReasonMeans(cfg, Listed(before), turns, i, cache, now);
      assert !Flagged(Listed(before), reasons, JobID(j), |reasons|);
    }
  }

  /** What a pass may have left of the Jobs after the first n verdicts: only Jobs of flagged ids are
      gone, and, if the pass is to be complete, all of those. */
  ghost predicate Pruned(before: seq<K8sJob>, after: seq<K8sJob>, listed: seq<K8sJob>, reasons: seq<string>, n: nat, complete: bool)
    requires n <= |listed| && n <= |reasons|
  {
    && (forall j :: j in after ==> j in before)
    && (forall j :: j in before && j !in after ==> Flagged(listed, reasons, JobID(j), n))
    && (complete ==> forall j :: j in after ==> !Flagged(listed, reasons, JobID(j), n))
  }

  /** The first `deleted` Jobs of a stale Job's group are gone, all of them if that is to be complete. */
  ghost predicate Cleaned(before: seq<K8sJob>, after: seq<K8sJob>, id: string, reason: string, deleted: nat, complete: bool) {
    && deleted <= |Group(before, id)|
    && after == (if reason != "" then Without(before, NamesOf(Group(before, id)[..deleted])) else before)
    && (reason != "" && complete ==> deleted == |Group(before, id)|)
  }

  lemma FlaggedStep(listed: seq<K8sJob>, reasons: seq<string>, id: string)
    requires 0 < |reasons| <= |listed|
    ensures var n := |reasons| - 1;
            Flagged(listed, reasons, id, n + 1) <==> Flagged(listed, reasons[..n], id, n) || (reasons[n] != "" && JobID(listed[n]) == id)
  {
    var n := |reasons| - 1;
    if Flagged(listed, reasons[..n], id, n) {
      var i :| 0 <= i < n && reasons[..n][i] != "" && JobID(listed[i]) == id;
      assert reasons[i] != "";
    }
    if i :| 0 <= i < n && reasons[i] != "" && JobID(listed[i]) == id {
      assert reasons[..n][i] != "";
    }
  }

  /** One more verdict, and the cleanup it leads to. */
  lemma PrunedStep(before: seq<K8sJob>, jobs: seq<K8sJob>, after: seq<K8sJob>, listed: seq<K8sJob>, reasons: seq<string>,
                   deleted: nat, complete: bool)
    requires Distinct(before) && 0 < |reasons| <= |listed|
    requires Pruned(before, jobs, listed, reasons[..|reasons| - 1], |reasons| - 1, complete)
    requires Cleaned(jobs, after, JobID(listed[|reasons| - 1]), reasons[|reasons| - 1], deleted, complete)
    ensures Pruned(before, after, listed, reasons, |reasons|, complete)
  {
    var id, stale := JobID(listed[|reasons| - 1]), reasons[|reasons| - 1] != "";
    var group := Group(jobs, id);
    forall j
      ensures j in after ==> j in before
      ensures j in before && j !in after ==> Flagged(listed, reasons, JobID(j), |reasons|)
      ensures complete && j in after ==> !Flagged(listed, reasons, JobID(j), |reasons|)
    {
      FlaggedStep(listed, reasons, JobID(j));
      if stale {
        WithoutMembers(jobs, NamesOf(group[..deleted]), j);
        if deleted == |group| {
          assert group[..deleted] == group;
          GroupGone(jobs, id, j);
        }
        if j in jobs && j !in after {
          var k :| k in group[..deleted] && k.name == j.name;
          GroupMembers(jobs, id, k);
        }
      }
    }
  }

  // ----- verdicts only ripen -----

  lemma {:induction false} FirstProblemStays(pods: seq<Pod>, age: int, later: int, stuck: int)
    requires age <= later && FirstProblem(pods, age, stuck) != ""
    ensures FirstProblem(pods, later, stuck) != ""
  {
    if PodProblem(pods[0], age, stuck) == "" {
      FirstProblemStays(pods[1..], age, later, stuck);
    }
  }

  /** A stale Job stays stale as time passes, if its pods and the GitHub status stay the same and it
      is not locked; and past the maximal runtime an unlocked Job is stale, whatever the rest. */
  lemma VerdictStays(cfg: Config, j: K8sJob, t: Turn, t': Turn, g: Option<GhJob>, now: int, now': int)
    requires t'.pods == t.pods && !t'.lock.Locked? && now <= now'
    requires Verdict(cfg, j, t, g, now) != "" || (JobID(j) != "" && now' - j.created >= cfg.maxRuntime)
    ensures Verdict(cfg, j, t', g, now') != ""
  {
    if t.pods.Some? && FirstProblem(t.pods.value, now - j.created, cfg.stuck) != "" {
      FirstProblemStays(t.pods.value, now - j.created, now' - j.created, cfg.stuck);
    }
  }

  // ----- the cache against GitHub itself -----

  /** The status of a GitHub job at a time. */
  type GitHub = (int, int) -> GhJob

  /** A completed job stays as it is. */
  ghost predicate Absorbing(gh: GitHub) {
    forall id, t, u :: t <= u && gh(id, t).status == "completed" ==> gh(id, u) == gh(id, t)
  }

  /** Requests succeed and are answered truthfully, and an answer is cached within `latency`. */
  ghost predicate Truthful(gh: GitHub, j: K8sJob, t: Turn, latency: int) {
    && t.clock <= t.asked <= t.stored <= t.asked + latency
    && (Traceable(j) ==> t.answer == Some(gh(GhID(JobID(j)).value, t.asked)))
  }

  /** What a sweep without a cache goes by. */
  ghost function Uncached(gh: GitHub, j: K8sJob, t: Turn): Option<GhJob> {
    if Traceable(j) then Some(gh(GhID(JobID(j)).value, t.asked)) else None
  }

  /** Every entry is what GitHub said within `latency` before it was stored, at `now` at the latest. */
  ghost predicate CacheOk(gh: GitHub, cache: map<string, Entry>, latency: int, now: int) {
    forall k :: k in cache ==>
      && GhID(k).Some? && cache[k].fetchedAt <= now
      && exists l :: cache[k].fetchedAt - latency <= l <= cache[k].fetchedAt && cache[k].job == gh(GhID(k).value, l)
  }

  lemma CacheStaysOk(gh: GitHub, cfg: Config, cache: map<string, Entry>, j: K8sJob, t: Turn, now: int, latency: int)
    requires CacheOk(gh, cache, latency, t.clock) && Truthful(gh, j, t, latency)
    ensures CacheOk(gh, CacheAfter(cfg, cache, j, t, now), latency, t.stored)
  {
  }

  /** What the cached sweep finds stale, a sweep without a cache would find stale at that instant,
      for the same reason. */
  lemma CacheSound(gh: GitHub, cfg: Config, cache: map<string, Entry>, j: K8sJob, t: Turn, now: int, latency: int)
    requires Absorbing(gh) && CacheOk(gh, cache, latency, t.clock) && Truthful(gh, j, t, latency)
    requires Verdict(cfg, j, t, Answer(cfg, cache, j, t), now) != ""
    ensures Verdict(cfg, j, t, Answer(cfg, cache, j, t), now) == Verdict(cfg, j, t, Uncached(gh, j, t), now)
  {
    if Traceable(j) && Cached(cfg, cache, JobID(j), t.clock).Some? {
      var id, f := GhID(JobID(j)).value, cache[JobID(j)].fetchedAt;
      var l :| f - latency <= l <= f && cache[JobID(j)].job == gh(id, l);
      assert gh(id, l).status == "completed" ==> gh(id, t.asked) == gh(id, l);
    }
  }

  /** A status looked up after the Job was done on GitHub says so, cached or not, once every older
      answer has expired. */
  lemma AnswerCaughtUp(gh: GitHub, cfg: Config, cache: map<string, Entry>, j: K8sJob, done: int, t: Turn, latency: int)
    requires Absorbing(gh) && CacheOk(gh, cache, latency, t.clock) && Truthful(gh, j, t, latency) && Traceable(j)
    requires gh(GhID(JobID(j)).value, done).status == "completed"
    requires t.clock >= done + cfg.cacheTTL + latency && cfg.cacheTTL >= 0
    ensures Answer(cfg, cache, j, t) == Some(gh(GhID(JobID(j)).value, done))
  {
    var id := GhID(JobID(j)).value;
    if Cached(cfg, cache, JobID(j), t.clock).Some? {
      var f := cache[JobID(j)].fetchedAt;
      var l :| f - latency <= l <= f && cache[JobID(j)].job == gh(id, l);
      assert done <= l;
    }
  }

  /** What a sweep without a cache finds stale, any cached sweep finds stale that looks at the Job at
      least the cache's time to live (and GitHub's latency) later, pods and lock being the same. */
  lemma CacheComplete(gh: GitHub, cfg: Config, cache: map<string, Entry>, j: K8sJob, t: Turn, now: int, t': Turn, now': int, latency: int)
    requires Absorbing(gh) && CacheOk(gh, cache, latency, t'.clock) && Truthful(gh, j, t', latency)
    requires Verdict(cfg, j, t, Uncached(gh, j, t), now) != ""
    requires t'.pods == t.pods && !t'.lock.Locked? && now <= now'
    requires t'.clock >= t.asked + cfg.cacheTTL + latency && cfg.cacheTTL >= 0
    ensures Verdict(cfg, j, t', Answer(cfg, cache, j, t'), now') != ""
  {
    VerdictStays(cfg, j, t, t', Uncached(gh, j, t), now, now');
    if Traceable(j) && gh(GhID(JobID(j)).value, t.asked).status == "completed" {
      AnswerCaughtUp(gh, cfg, cache, j, t.asked, t', latency);
    }
  }

  /** A look without a cache that finds the Job stale, and a look with one, truthfully answered, that
      comes at least `delay` later, pods and lock being the same. */
  ghost predicate LooksAgain(gh: GitHub, cfg: Config, cache: map<string, Entry>, j: K8sJob, t: Turn, now: int, t': Turn, now': int,
                             latency: int, delay: int) {
    && Absorbing(gh) && CacheOk(gh, cache, latency, t'.clock) && Truthful(gh, j, t', latency)
    && Verdict(cfg, j, t, Uncached(gh, j, t), now) != ""
    && t'.pods == t.pods && !t'.lock.Locked? && now <= now' && t'.clock >= t.asked + delay
  }

  /** So long after, a cached look always finds stale what a look without a cache found stale. */
  ghost predicate CatchesUp(cfg: Config, latency: int, delay: int) {
    forall gh, cache, j, t, now, t', now' :: LooksAgain(gh, cfg, cache, j, t, now, t', now', latency, delay)
      ==> Verdict(cfg, j, t', Answer(cfg, cache, j, t'), now') != ""
  }

  /** It does if and only if that is the time to live and the latency together: a request made just
      before the job completed may be answered by what was true then, after that latency. */
  lemma CacheBoundExact(cfg: Config, latency: int, delay: int)
    requires cfg.cacheTTL >= 0 && latency >= 0 && cfg.maxRuntime > 0
    ensures CatchesUp(cfg, latency, delay) <==> delay >= cfg.cacheTTL + latency
  {
    if delay >= cfg.cacheTTL + latency {
      forall gh, cache, j, t, now, t', now' | LooksAgain(gh, cfg, cache, j, t, now, t', now', latency, delay)
        ensures Verdict(cfg, j, t', Answer(cfg, cache, j, t'), now') != ""
      {
        CacheComplete(gh, cfg, cache, j, t, now, t', now', latency);
      }
    } else {
      var gh, cache, j, t, t' := LateAnswer(cfg, latency, delay);
    }
  }

  const HEALTHY := Pod("", "", map[], [], "Running", [], [])
  const SOME_JOB := K8sJob("", map[LABEL_OWNER := "o", LABEL_REPO := "r", LABEL_GH_JOB := FormatInt(0)], 0)

  lemma OnePod(pod: Pod, age: int, stuck: int)
    ensures PodVerdict([pod], age, stuck) == PodProblem(pod, age, stuck)
  {
    assert [pod][1..] == [];
    assert FirstProblem([pod][1..], age, stuck) == "";
  }

  lemma SomeJob()
    ensures Traceable(SOME_JOB) && JobID(SOME_JOB) != "" && GhID(JobID(SOME_JOB)) == Some(0)
  {
    FormatParse(0);
  }

  /** The answer of a request made one moment before the job completed at 0 is cached as late as it can
      be, and looked up in the last moment in which it counts. */
  lemma LateAnswer(cfg: Config, latency: int, delay: int)
    returns (gh: GitHub, cache: map<string, Entry>, j: K8sJob, t: Turn, t': Turn)
    requires cfg.cacheTTL >= 0 && latency >= 0 && cfg.maxRuntime > 0 && delay < cfg.cacheTTL + latency
    ensures LooksAgain(gh, cfg, cache, j, t, 0, t', 0, latency, delay)
    ensures Verdict(cfg, j, t', Answer(cfg, cache, j, t'), 0) == ""
  {
    SomeJob();
    var last := cfg.cacheTTL + latency - 1;
    gh := (id: int, u: int) => if u < 0 then GhJob("in_progress", None) else GhJob("completed", Some(-cfg.cleanupGrace));
    j := SOME_JOB;
    cache := map[JobID(j) := Entry(gh(0, -1), latency - 1)];
    t := Turn(Unlocked, Some([HEALTHY]), 0, 0, None, 0, Unlocked, Faults(false, {}));
    t' := t.(clock := last, asked := last, answer := Some(gh(0, last)), stored := last);
    OnePod(HEALTHY, 0, cfg.stuck);
    assert Truthful(gh, j, t', latency);
    assert CacheOk(gh, cache, latency, last) by {
      assert cache[JobID(j)].job == gh(0, -1);
    }
    assert Verdict(cfg, j, t, Uncached(gh, j, t), 0) != "";
  }

  // The same for whole passes.

  /** All Jobs are looked at in order, each truthfully. */
  ghost predicate Honest(gh: GitHub, listed: seq<K8sJob>, turns: seq<Turn>, latency: int)
    requires |listed| <= |turns|
  {
    && (forall i :: 0 <= i < |listed| ==> Truthful(gh, listed[i], turns[i], latency))
    && (forall i, k :: 0 <= i < k < |listed| ==> turns[i].stored <= turns[k].clock)
  }

  /** The cache that a pass, being at the i-th Job, has when it comes to the k-th. */
  function CacheBefore(cfg: Config, listed: seq<K8sJob>, turns: seq<Turn>, i: nat, k: nat, cache: map<string, Entry>, now: int): map<string, Entry>
    requires i <= k <= |listed| <= |turns|
    decreases k - i
  {
    if i == k then cache else CacheBefore(cfg, listed, turns, i + 1, k, CacheAfter(cfg, cache, listed[i], turns[i], now), now)
  }

  /** It is all that the verdict on the k-th Job depends on. */
  lemma {:induction false} VerdictAt(cfg: Config, listed: seq<K8sJob>, turns: seq<Turn>, i: nat, k: nat, cache: map<string, Entry>, now: int)
    requires i <= k < |listed| <= |turns|
    ensures var at := CacheBefore(cfg, listed, turns, i, k, cache, now);
            Verdicts(cfg, listed, turns, i, cache, now)[k - i] == Verdict(cfg, listed[k], turns[k], Answer(cfg, at, listed[k], turns[k]), now)
    decreases k - i
  {
    if i < k {
      var next := CacheAfter(cfg, cache, listed[i], turns[i], now);
      VerdictAt(cfg, listed, turns, i + 1, k, next, now);
      assert Verdicts(cfg, listed, turns, i, cache, now)[k - i] == Verdicts(cfg, listed, turns, i + 1, next, now)[k - i - 1];
    }
  }

  lemma {:induction false} CacheBeforeOk(gh: GitHub, cfg: Config, listed: seq<K8sJob>, turns: seq<Turn>, i: nat, k: nat,
                                         cache: map<string, Entry>, now: int, latency: int)
    requires i <= k < |listed| <= |turns| && Honest(gh, listed, turns, latency)
    requires CacheOk(gh, cache, latency, turns[i].clock)
    ensures CacheOk(gh, CacheBefore(cfg, listed, turns, i, k, cache, now), latency, turns[k].clock)
    decreases k - i
  {
    if i < k {
      CacheStaysOk(gh, cfg, cache, listed[i], turns[i], now, latency);
      CacheBeforeOk(gh, cfg, listed, turns, i + 1, k, CacheAfter(cfg, cache, listed[i], turns[i], now), now, latency);
    }
  }

  lemma CacheAt(gh: GitHub, cfg: Config, listed: seq<K8sJob>, turns: seq<Turn>, k: nat, cache: map<string, Entry>, now: int, latency: int)
    returns (at: map<string, Entry>)
    requires k < |listed| <= |turns| && Honest(gh, listed, turns, latency)
    requires CacheOk(gh, cache, latency, turns[0].clock)
    ensures CacheOk(gh, at, latency, turns[k].clock)
    ensures Verdicts(cfg, listed, turns, 0, cache, now)[k] == Verdict(cfg, listed[k], turns[k], Answer(cfg, at, listed[k], turns[k]), now)
  {
    at := CacheBefore(cfg, listed, turns, 0, k, cache, now);
    VerdictAt(cfg, listed, turns, 0, k, cache, now);
    CacheBeforeOk(gh, cfg, listed, turns, 0, k, cache, now, latency);
  }

  /** A pass keeps the cache in order, up to any time after it. */
  lemma {:induction false} PassKeepsCache(gh: GitHub, cfg: Config, listed: seq<K8sJob>, turns: seq<Turn>, i: nat,
                                          cache: map<string, Entry>, now: int, latency: int, later: int)
    requires i <= |listed| <= |turns| && Honest(gh, listed, turns, latency)
    requires CacheOk(gh, cache, latency, if i < |listed| then turns[i].clock else later)
    requires forall k :: i <= k < |listed| ==> turns[k].stored <= later
    ensures CacheOk(gh, CacheAfterPass(cfg, listed, turns, i, cache, now), latency, later)
    decreases |listed| - i
  {
    if i < |listed| {
      CacheStaysOk(gh, cfg, cache, listed[i], turns[i], now, latency);
      PassKeepsCache(gh, cfg, listed, turns, i + 1, CacheAfter(cfg, cache, listed[i], turns[i], now), now, latency, later);
    }
  }

  /** Every verdict of a pass with a cache is one of a pass without, and every verdict a pass without
      a cache could have given long enough before is one of the pass with. */
  lemma PassRefinesUncached(gh: GitHub, cfg: Config, listed: seq<K8sJob>, turns: seq<Turn>, k: nat,
                            cache: map<string, Entry>, now: int, latency: int, t: Turn, before: int)
    requires k < |listed| <= |turns| && Honest(gh, listed, turns, latency) && Absorbing(gh) && cfg.cacheTTL >= 0
    requires CacheOk(gh, cache, latency, turns[0].clock)
    ensures var reason := Verdicts(cfg, listed, turns, 0, cache, now)[k];
            && (reason != "" ==> reason == Verdict(cfg, listed[k], turns[k], Uncached(gh, listed[k], turns[k]), now))
            && (&& t.pods == turns[k].pods && !turns[k].lock.Locked? && before <= now
                && t.asked + cfg.cacheTTL + latency <= turns[k].clock
                && Verdict(cfg, listed[k], t, Uncached(gh, listed[k], t), before) != ""
                ==> reason != "")
  {
    var at := CacheAt(gh, cfg, listed, turns, k, cache, now, latency);
    var reason := Verdict(cfg, listed[k], turns[k], Answer(cfg, at, listed[k], turns[k]), now);
    if reason != "" {
      CacheSound(gh, cfg, at, listed[k], turns[k], now, latency);
    } else if t.pods == turns[k].pods && !turns[k].lock.Locked? && before <= now
              && t.asked + cfg.cacheTTL + latency <= turns[k].clock
              && Verdict(cfg, listed[k], t, Uncached(gh, listed[k], t), before) != "" {
      CacheComplete(gh, cfg, at, listed[k], t, before, turns[k], now, latency);
    }
  }

  /** While GitHub's answers do not change, a cached pass is the pass without a cache. */
  lemma SteadyPass(gh: GitHub, cfg: Config, listed: seq<K8sJob>, turns: seq<Turn>, k: nat,
                   cache: map<string, Entry>, now: int, latency: int)
    requires k < |listed| <= |turns| && Honest(gh, listed, turns, latency)
    requires forall id, t, u :: gh(id, t) == gh(id, u)
    requires CacheOk(gh, cache, latency, turns[0].clock)
    ensures Verdicts(cfg, listed, turns, 0, cache, now)[k]
         == Verdict(cfg, listed[k], turns[k], Uncached(gh, listed[k], turns[k]), now)
  {
    var at := CacheAt(gh, cfg, listed, turns, k, cache, now, latency);
    var j, t := listed[k], turns[k];
    if Traceable(j) && Cached(cfg, at, JobID(j), t.clock).Some? {
      var id, f := GhID(JobID(j)).value, at[JobID(j)].fetchedAt;
      var l :| f - latency <= l <= f && at[JobID(j)].job == gh(id, l);
      assert gh(id, l) == gh(id, t.asked);
    }
  }
}
