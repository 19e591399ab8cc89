/** The reconciler (internal/reconciler/reconciler.go): re-dispatches stale queued jobs, with a quota
    per repository and cycle and a cooldown per job. Times are nanoseconds. */
module Reconciler {
  import opened Options
  import opened Decimal
  import opened Repos

  datatype Config = Config(repos: seq<string>, stale: int, max: int, cooldown: int)

  datatype WorkflowJob = WorkflowJob(id: int, runID: int, status: string, createdAt: Option<int>)

  /** What the Job listing for the id answers. */
  datatype Probe = HasJob | NoJob | ProbeError

  /** A listed job, with the answers it would get: of the Job listing, and of Dispatch; and the time
      at which Dispatch would be called for it, which is later than the start of the turn by as long
      as the calls before it took. */
  datatype Listed = Listed(job: WorkflowJob, probe: Probe, dispatchOk: bool, callAt: int)

  /** A workflow run and its jobs, None if they cannot be listed. */
  datatype Run = Run(id: int, jobs: Option<seq<Listed>>)

  /** A repository in one cycle: its runs (None if they cannot be listed), and the time then. */
  datatype Turn = Turn(runs: Option<seq<Run>>, now: int)

  /** A job marked as checked at a time: it was found to have a Job, or Dispatch was called. The mark
      is the start of the turn, not the time of the call. */
  datatype Check = Found(id: string, at: int) | Tried(id: string, at: int, called: int, ok: bool)

  function FormatID(id: int): string { FormatInt(id) }

  predicate Due(cfg: Config, j: WorkflowJob, now: int) {
    j.status == "queued" && j.createdAt.Some? && now - j.createdAt.value >= cfg.stale
  }

  predicate Recent(cfg: Config, checked: map<string, int>, id: string, now: int) {
    id in checked && now - checked[id] < cfg.cooldown
  }

  // ----- one cycle of one repository, as a fold over the jobs it lists -----

  datatype State = State(checked: map<string, int>, log: seq<Check>, dispatched: nat)

  function One(cfg: Config, s: State, l: Listed, now: int): State {
    var id := FormatID(l.job.id);
    if s.dispatched >= cfg.max || !Due(cfg, l.job, now) || Recent(cfg, s.checked, id, now) || l.probe.ProbeError? then s
    else if l.probe.HasJob? then s.(checked := s.checked[id := now], log := s.log + [Found(id, now)])
    else
      State(s.checked[id := now], s.log + [Tried(id, now, l.callAt, l.dispatchOk)], if l.dispatchOk then s.dispatched + 1 else s.dispatched)
  }

  function All(cfg: Config, s: State, ls: seq<Listed>, now: int): State
    decreases |ls|
  {
    if ls == [] then s else All(cfg, One(cfg, s, ls[0], now), ls[1..], now)
  }

  /** All jobs of the runs whose jobs can be listed. */
  function JobsOf(runs: seq<Run>): seq<Listed> {
    if runs == [] then []
    else if runs[0].jobs.Some? then runs[0].jobs.value + JobsOf(runs[1..])
    else JobsOf(runs[1..])
  }

  lemma {:induction false} AllConcat(cfg: Config, s: State, a: seq<Listed>, b: seq<Listed>, now: int)
    ensures All(cfg, s, a + b, now) == All(cfg, All(cfg, s, a, now), b, now)
    decreases |a|
  {
    if a == [] {
      assert a + b == b;
    } else {
      AllConcat(cfg, One(cfg, s, a[0], now), a[1..], b, now);
      assert (a + b)[1..] == a[1..] + b;
    }
  }

  /** Once the quota is used up nothing more happens. */
  lemma {:induction false} AllSpent(cfg: Config, s: State, ls: seq<Listed>, now: int)
    requires s.dispatched >= cfg.max
    ensures All(cfg, s, ls, now) == s
    decreases |ls|
  {
    if ls != [] {
      AllSpent(cfg, s, ls[1..], now);
    }
  }

  /** A repository's turn: the state it leaves, its successes counted from zero. */
  function AfterTurn(cfg: Config, checked: map<string, int>, log: seq<Check>, t: Turn): State {
    if t.runs.None? then State(checked, log, 0) else All(cfg, State(checked, log, 0), JobsOf(t.runs.value), t.now)
  }

  /** The state after a history of turns, of whichever repositories. */
  function AfterTurns(cfg: Config, checked: map<string, int>, log: seq<Check>, turns: seq<Turn>): State {
    if turns == [] then State(checked, log, 0)
    else
      var s := AfterTurns(cfg, checked, log, turns[..|turns| - 1]);
      AfterTurn(cfg, s.checked, s.log, turns[|turns| - 1])
  }

  /** The turns of a cycle whose configuration entries are owner/repo. */
  function Accepted(repos: seq<string>, turns: seq<Turn>): seq<Turn>
    requires |repos| == |turns|
  {
    if turns == [] then []
    else
      var n := |turns| - 1;
      Accepted(repos[..n], turns[..n]) + if SplitRepo(repos[n]).None? then [] else [turns[n]]
  }

  /** They are exactly the turns of the well-formed entries, in order: two runs of entries after each
      other, and one entry. */
  lemma {:induction false} AcceptedInOrder(a: seq<string>, b: seq<string>, s: seq<Turn>, t: seq<Turn>)
    requires |a| == |s| && |b| == |t|
    ensures Accepted(a + b, s + t) == Accepted(a, s) + Accepted(b, t)
  {
    if b == [] {
      assert a + b == a && s + t == s;
    } else {
      var n := |b| - 1;
      AcceptedInOrder(a, b[..n], s, t[..n]);
      assert (a + b)[..|a + b| - 1] == a + b[..n] && (s + t)[..|s + t| - 1] == s + t[..n];
    }
  }

  lemma AcceptedOne(repo: string, t: Turn)
    ensures Accepted([repo], [t]) == if exists owner, name :: WellFormed(repo, owner, name) then [t] else []
  {
    SplitRepoExact(repo);
    assert Accepted([repo][..0], [t][..0]) == [];
    var r := SplitRepo(repo);
    assert r.Some? ==> WellFormed(repo, r.value.owner, r.value.name);
  }

  /** An owner without slashes and a name, joined by a slash. */
  predicate WellFormed(repo: string, owner: string, name: string) {
    owner != "" && name != "" && '/' !in owner && repo == owner + "/" + name
  }

  class Reconciler {
    const cfg: Config
    var lastChecked: map<string, int>
    var log: seq<Check>              // every check so far

    ghost var history: seq<Turn>     // every repository's turn so far

    ghost predicate Valid()
      reads this
    {
      var s := AfterTurns(cfg, map[], [], history);
      lastChecked == s.checked && log == s.log
    }

    constructor (cfg: Config)
      ensures Valid() && this.cfg == cfg && history == []
    {
      this.cfg := cfg;
      lastChecked, log, history := map[], [], [];
    }

    /** The jobs of one run, until the quota is reached. */
    method ReconcileRun(jobs: seq<Listed>, now: int, already: nat) returns (dispatched: nat)
      modifies `lastChecked, `log
      ensures State(lastChecked, log, dispatched) == All(cfg, old(State(lastChecked, log, already)), jobs, now)
    {
      dispatched := already;
      ghost var end := All(cfg, State(lastChecked, log, dispatched), jobs, now);
      for i := 0 to |jobs|
        invariant All(cfg, State(lastChecked, log, dispatched), jobs[i..], now) == end
      {
        if dispatched >= cfg.max {
          AllSpent(cfg, State(lastChecked, log, dispatched), jobs[i..], now);
          break;
        }
        assert jobs[i..][0] == jobs[i] && jobs[i..][1..] == jobs[i + 1..];
        var job := jobs[i].job;
        if job.status != "queued" {
          continue;
        }
        if job.createdAt.None? || now - job.createdAt.value < cfg.stale {
          continue;
        }
        var jobID := FormatID(job.id);
        if Recent(cfg, lastChecked, jobID, now) {
          continue;
        }
        if jobs[i].probe.ProbeError? {
          continue;
        }
        if jobs[i].probe.HasJob? {
          log := log + [Found(jobID, now)];
          lastChecked := lastChecked[jobID := now];
          continue;
        }
        log := log + [Tried(jobID, now, jobs[i].callAt, jobs[i].dispatchOk)];
        if jobs[i].dispatchOk {
          dispatched := dispatched + 1;
        }
        lastChecked := lastChecked[jobID := now];
      }
    }

    method ReconcileRepo(t: Turn) returns (failed: bool)
      requires Valid()
      modifies this
      ensures Valid() && history == old(history) + [t] && failed == t.runs.None?
    {
      history := history + [t];
      assert history[..|history| - 1] == old(history);
      if t.runs.None? {
        return true;
      }
      var runs := t.runs.value;
      var dispatched: nat := 0;
      ghost var end := AfterTurn(cfg, lastChecked, log, t);
      for i := 0 to |runs|
        invariant history == old(history) + [t]
        invariant All(cfg, State(lastChecked, log, dispatched), JobsOf(runs[i..]), t.now) == end
      {
        if dispatched >= cfg.max {
          AllSpent(cfg, State(lastChecked, log, dispatched), JobsOf(runs[i..]), t.now);
          break;
        }
        assert runs[i..][0] == runs[i] && runs[i..][1..] == runs[i + 1..];
        if runs[i].jobs.None? {
          continue;
        }
        AllConcat(cfg, State(lastChecked, log, dispatched), runs[i].jobs.value, JobsOf(runs[i + 1..]), t.now);
        dispatched := ReconcileRun(runs[i].jobs.value, t.now, dispatched);
      }
      failed := false;
    }

    /** A cycle: the repositories in order; entries that are not owner/repo are skipped. */
    method ReconcileOnce(turns: seq<Turn>)
      requires Valid() && |turns| == |cfg.repos|
      modifies this
      ensures Valid() && history == old(history) + Accepted(cfg.repos, turns)
    {
      for i := 0 to |turns|
        invariant Valid() && history == old(history) + Accepted(cfg.repos[..i], turns[..i])
      {
        var repo := SplitRepo(cfg.repos[i]);
        assert cfg.repos[..i + 1][..i] == cfg.repos[..i] && turns[..i + 1][..i] == turns[..i];
        if repo.None? {
          continue;
        }
        var failed := ReconcileRepo(turns[i]);
      }
      assert cfg.repos[..|turns|] == cfg.repos && turns[..|turns|] == turns;
    }
  }

  // ----- what a turn does, job by job -----

  /** A queued job that was created at least `stale` before. */
  predicate StaleQueued(cfg: Config, j: WorkflowJob, now: int) {
    j.status == "queued" && j.createdAt.Some? && j.createdAt.value <= now - cfg.stale
  }

  /** The check is that of this listed job: tried if it has no Job, found if it has one. */
  predicate CheckOf(cfg: Config, c: Check, l: Listed, now: int) {
    && StaleQueued(cfg, l.job, now) && c.id == FormatInt(l.job.id) && c.at == now
    && if c.Tried? then l.probe == NoJob && c.called == l.callAt && c.ok == l.dispatchOk else l.probe == HasJob
  }

  lemma OneExact(cfg: Config, s: State, l: Listed, now: int)
    ensures var t, id := One(cfg, s, l, now), FormatInt(l.job.id);
            && s.dispatched <= t.dispatched
            && (t.log == s.log ==> t.checked == s.checked)
            && (t.log != s.log ==> exists c :: t.log == s.log + [c] && CheckOf(cfg, c, l, now) && t.checked == s.checked[id := now])
            && (t.log == s.log && t.dispatched < cfg.max && StaleQueued(cfg, l.job, now) && l.probe != ProbeError ==>
                  id in s.checked && s.checked[id] > now - cfg.cooldown)
  {
    var t := One(cfg, s, l, now);
    if t.log != s.log {
      var c := t.log[|s.log|];
      assert t.log == s.log + [c] && CheckOf(cfg, c, l, now);
    }
  }

  lemma {:induction false} AllGrows(cfg: Config, s: State, ls: seq<Listed>, now: int)
    ensures var t := All(cfg, s, ls, now); s.log <= t.log && s.dispatched <= t.dispatched
    decreases |ls|
  {
    if ls != [] {
      OneExact(cfg, s, ls[0], now);
      AllGrows(cfg, One(cfg, s, ls[0], now), ls[1..], now);
    }
  }

  /** Every check the jobs lead to is that of one of them. */
  lemma {:induction false} ChecksListed(cfg: Config, s: State, ls: seq<Listed>, now: int, i: nat) returns (l: Listed)
    requires |s.log| <= i < |All(cfg, s, ls, now).log|
    ensures l in ls && CheckOf(cfg, All(cfg, s, ls, now).log[i], l, now)
    decreases |ls|
  {
    assert ls != [];
    var s' := One(cfg, s, ls[0], now);
    OneExact(cfg, s, ls[0], now);
    if i < |s'.log| {
      AllGrows(cfg, s', ls[1..], now);
      return ls[0];
    }
    l := ChecksListed(cfg, s', ls[1..], now, i);
  }

  /** As long as the quota is not used up, each job is checked that is queued, old enough, not checked
      within the cooldown, and looked up. */
  lemma {:induction false} ListedChecked(cfg: Config, s: State, ls: seq<Listed>, now: int, l: Listed)
    requires l in ls && StaleQueued(cfg, l.job, now) && l.probe != ProbeError && All(cfg, s, ls, now).dispatched < cfg.max
    ensures CheckedLately(cfg, s.checked, l, now) || Adds(s.log, All(cfg, s, ls, now).log, FormatInt(l.job.id))
    decreases |ls|
  {
    var s', t := One(cfg, s, ls[0], now), All(cfg, s, ls, now);
    OneExact(cfg, s, ls[0], now);
    AllGrows(cfg, s', ls[1..], now);
    if s'.log != s.log && FormatInt(l.job.id) == FormatInt(ls[0].job.id) {
      assert t.log[|s.log|] == s'.log[|s.log|];
    } else if l != ls[0] {
      assert l in ls[1..];
      ListedChecked(cfg, s', ls[1..], now, l);
    }
  }

  /** The job was checked within the cooldown. */
  predicate CheckedLately(cfg: Config, checked: map<string, int>, l: Listed, now: int) {
    FormatInt(l.job.id) in checked && checked[FormatInt(l.job.id)] > now - cfg.cooldown
  }

  /** The longer log has a check of the id that the other one does not have. */
  ghost predicate Adds(log: seq<Check>, more: seq<Check>, id: string) {
    exists i :: |log| <= i < |more| && more[i].id == id
  }

  lemma {:induction false} JobsOfExact(runs: seq<Run>, l: Listed)
    ensures l in JobsOf(runs) <==> exists r :: r in runs && r.jobs.Some? && l in r.jobs.value
  {
    if runs != [] {
      JobsOfExact(runs[1..], l);
      assert forall r :: r in runs <==> r == runs[0] || r in runs[1..];
    }
  }

  /** What one turn does: every check it adds is that of a queued job listed in it, created at least
      `stale` before, called for exactly if it is known to have no Job; and unless the quota was used up
      every such job was checked, but for those checked within the cooldown and those not looked up. */
  lemma TurnExact(cfg: Config, checked: map<string, int>, log: seq<Check>, t: Turn)
    requires t.runs.Some?
    ensures var s := AfterTurn(cfg, checked, log, t);
            && log <= s.log
            && (forall i :: |log| <= i < |s.log| ==> exists r, l :: ListedIn(t, r, l) && CheckOf(cfg, s.log[i], l, t.now))
            && (Successes(s.log) - Successes(log) < cfg.max ==>
                  forall r, l :: ListedIn(t, r, l) && StaleQueued(cfg, l.job, t.now) && l.probe != ProbeError
                    ==> CheckedLately(cfg, checked, l, t.now) || Adds(log, s.log, FormatInt(l.job.id)))
  {
    var ls, start := JobsOf(t.runs.value), State(checked, log, 0);
    var s := All(cfg, start, ls, t.now);
    AllGrows(cfg, start, ls, t.now);
    SuccessesCounted(cfg, start, ls, t.now);
    forall i | |log| <= i < |s.log| ensures exists r, l :: ListedIn(t, r, l) && CheckOf(cfg, s.log[i], l, t.now) {
      var l := ChecksListed(cfg, start, ls, t.now, i);
      JobsOfExact(t.runs.value, l);
      var r :| r in t.runs.value && r.jobs.Some? && l in r.jobs.value;
      assert ListedIn(t, r, l);
    }
    forall r, l | ListedIn(t, r, l) && StaleQueued(cfg, l.job, t.now) && l.probe != ProbeError && s.dispatched < cfg.max
      ensures CheckedLately(cfg, checked, l, t.now) || Adds(log, s.log, FormatInt(l.job.id))
    {
      JobsOfExact(t.runs.value, l);
      ListedChecked(cfg, start, ls, t.now, l);
    }
  }

  /** The turn lists the job, in that run. */
  predicate ListedIn(t: Turn, r: Run, l: Listed) {
    t.runs.Some? && r in t.runs.value && r.jobs.Some? && l in r.jobs.value
  }

  // ----- quota -----

  /** How many of the checks are successful Dispatch calls. */
  function Successes(log: seq<Check>): nat {
    if log == [] then 0
    else Successes(log[..|log| - 1]) + if log[|log| - 1].Tried? && log[|log| - 1].ok then 1 else 0
  }

  lemma SuccessesStep(cfg: Config, s: State, l: Listed, now: int)
    ensures var t := One(cfg, s, l, now); Successes(t.log) - Successes(s.log) == t.dispatched - s.dispatched
  {
    var t := One(cfg, s, l, now);
    if t.log != s.log {
      assert t.log[..|t.log| - 1] == s.log;
    }
  }

  lemma {:induction false} SuccessesCounted(cfg: Config, s: State, ls: seq<Listed>, now: int)
    ensures var t := All(cfg, s, ls, now);
            && Successes(t.log) - Successes(s.log) == t.dispatched - s.dispatched
            && (t.dispatched <= cfg.max || t.dispatched == s.dispatched)
    decreases |ls|
  {
    if ls != [] {
      SuccessesStep(cfg, s, ls[0], now);
      SuccessesCounted(cfg, One(cfg, s, ls[0], now), ls[1..], now);
    }
  }

  /** A repository's turn has at most `max` successful Dispatch calls. */
  lemma Quota(cfg: Config, checked: map<string, int>, log: seq<Check>, t: Turn)
    requires cfg.max >= 0
    ensures Successes(AfterTurn(cfg, checked, log, t).log) - Successes(log) <= cfg.max
  {
    if t.runs.Some? {
      SuccessesCounted(cfg, State(checked, log, 0), JobsOf(t.runs.value), t.now);
    }
  }

  // ----- spacing of the marks -----

  /** Any two marks of the same job are at least the cooldown apart; the map holds, for each job
      checked, a time no earlier than its checks; and all of that was not after `now`. */
  ghost predicate Spaced(cfg: Config, checked: map<string, int>, log: seq<Check>, now: int) {
    && (forall i, j :: 0 <= i < j < |log| && log[i].id == log[j].id ==> log[j].at - log[i].at >= cfg.cooldown)
    && (forall i :: 0 <= i < |log| ==> log[i].id in checked && log[i].at <= checked[log[i].id] <= now)
  }

  lemma OneSpaced(cfg: Config, s: State, l: Listed, now: int)
    requires Spaced(cfg, s.checked, s.log, now)
    ensures var t := One(cfg, s, l, now); Spaced(cfg, t.checked, t.log, now)
  {
  }

  lemma {:induction false} AllSpaced(cfg: Config, s: State, ls: seq<Listed>, now: int)
    requires Spaced(cfg, s.checked, s.log, now)
    ensures var t := All(cfg, s, ls, now); Spaced(cfg, t.checked, t.log, now)
    decreases |ls|
  {
    if ls != [] {
      OneSpaced(cfg, s, ls[0], now);
      AllSpaced(cfg, One(cfg, s, ls[0], now), ls[1..], now);
    }
  }

  ghost predicate InOrder(turns: seq<Turn>, later: int) {
    turns == [] || (turns[|turns| - 1].now <= later && InOrder(turns[..|turns| - 1], turns[|turns| - 1].now))
  }

  /** Over all runs: any two checks of a job are marked at least the cooldown apart. */
  lemma {:induction false} MarksAreSpaced(cfg: Config, turns: seq<Turn>, later: int)
    requires InOrder(turns, later)
    ensures var s := AfterTurns(cfg, map[], [], turns); Spaced(cfg, s.checked, s.log, later)
  {
    if turns != [] {
      var pre, t := turns[..|turns| - 1], turns[|turns| - 1];
      MarksAreSpaced(cfg, pre, t.now);
      if t.runs.Some? {
        var s := AfterTurns(cfg, map[], [], pre);
        AllSpaced(cfg, State(s.checked, s.log, 0), JobsOf(t.runs.value), t.now);
      }
    }
  }

  // ----- spacing of the calls -----

  /** The calls of a turn come one after the other, from `now` to `end`. */
  ghost predicate Timed(ls: seq<Listed>, now: int, end: int) {
    && (forall i :: 0 <= i < |ls| ==> now <= ls[i].callAt <= end)
    && (forall i, j :: 0 <= i < j < |ls| ==> ls[i].callAt <= ls[j].callAt)
  }

  ghost predicate TimedTurn(t: Turn, end: int) {
    t.now <= end && (t.runs.Some? ==> Timed(JobsOf(t.runs.value), t.now, end))
  }

  /** The turns come one after the other, each with all its calls done before the next one. */
  ghost predicate WellTimed(turns: seq<Turn>, later: int) {
    turns == [] || (TimedTurn(turns[|turns| - 1], later) && WellTimed(turns[..|turns| - 1], turns[|turns| - 1].now))
  }

  lemma {:induction false} WellTimedInOrder(turns: seq<Turn>, later: int)
    requires WellTimed(turns, later)
    ensures InOrder(turns, later)
  {
    if turns != [] {
      WellTimedInOrder(turns[..|turns| - 1], turns[|turns| - 1].now);
    }
  }

  /** Calls are in the order of the log, none before its mark and none after `clock`. */
  ghost predicate CallsInOrder(log: seq<Check>, clock: int) {
    && (forall i :: 0 <= i < |log| && log[i].Tried? ==> log[i].at <= log[i].called <= clock)
    && (forall i, j :: 0 <= i < j < |log| && log[i].Tried? && log[j].Tried? ==> log[i].called <= log[j].called)
  }

  lemma {:induction false} AllCallsInOrder(cfg: Config, s: State, ls: seq<Listed>, now: int, clock: int, end: int)
    requires CallsInOrder(s.log, clock) && Timed(ls, now, end) && clock <= end
    requires ls != [] ==> clock <= ls[0].callAt
    ensures CallsInOrder(All(cfg, s, ls, now).log, end)
    decreases |ls|
  {
    if ls != [] {
      AllCallsInOrder(cfg, One(cfg, s, ls[0], now), ls[1..], now, ls[0].callAt, end);
    }
  }

  lemma {:induction false} TurnsCallsInOrder(cfg: Config, turns: seq<Turn>, later: int)
    requires WellTimed(turns, later)
    ensures CallsInOrder(AfterTurns(cfg, map[], [], turns).log, later)
  {
    if turns != [] {
      var pre, t := turns[..|turns| - 1], turns[|turns| - 1];
      TurnsCallsInOrder(cfg, pre, t.now);
      if t.runs.Some? {
        var s := AfterTurns(cfg, map[], [], pre);
        AllCallsInOrder(cfg, State(s.checked, s.log, 0), JobsOf(t.runs.value), t.now, t.now, later);
      }
    }
  }

  /** How far behind its mark the i-th call was. */
  function Lag(log: seq<Check>, i: nat): int
    requires i < |log| && log[i].Tried?
  {
    log[i].called - log[i].at
  }

  /** The i-th and the j-th check of the log are Dispatch calls for the same job. */
  predicate CallsOfOneJob(log: seq<Check>, i: nat, j: nat) {
    i < j < |log| && log[i].Tried? && log[j].Tried? && log[i].id == log[j].id
  }

  /** In a history of turns, two calls for a job, the first with the given lag behind its mark. */
  ghost predicate Repeated(cfg: Config, turns: seq<Turn>, later: int, i: nat, j: nat, lag: int) {
    var log := AfterTurns(cfg, map[], [], turns).log;
    WellTimed(turns, later) && CallsOfOneJob(log, i, j) && Lag(log, i) == lag
  }

  function Apart(cfg: Config, turns: seq<Turn>, i: nat, j: nat): int
    requires CallsOfOneJob(AfterTurns(cfg, map[], [], turns).log, i, j)
  {
    var log := AfterTurns(cfg, map[], [], turns).log;
    log[j].called - log[i].called
  }

  function AtLeastZero(x: int): nat { if x < 0 then 0 else x }

  /** Over all runs: two Dispatch calls for a job are apart by at least what the first one's lag behind
      its mark leaves of the cooldown. */
  lemma CallsAreSpaced(cfg: Config, turns: seq<Turn>, later: int, i: nat, j: nat, lag: int)
    requires Repeated(cfg, turns, later, i, j, lag)
    ensures lag >= 0 && Apart(cfg, turns, i, j) >= AtLeastZero(cfg.cooldown - lag)
  {
    WellTimedInOrder(turns, later);
    MarksAreSpaced(cfg, turns, later);
    TurnsCallsInOrder(cfg, turns, later);
  }

  // A history with two calls for a job as close together as that.

  function DueJob(cfg: Config, id: int): WorkflowJob { WorkflowJob(id, 1, "queued", Some(-cfg.stale)) }

  /** A turn that lists one due job without a Job, whose Dispatch is called at the given time and fails. */
  function OneJob(cfg: Config, id: int, now: int, callAt: int): Turn {
    Turn(Some([Run(1, Some([Listed(DueJob(cfg, id), NoJob, false, callAt)]))]), now)
  }

  /** The first time the mark of time 0 and the end of a call at `lag` allow the next call. */
  function Again(cfg: Config, lag: nat): nat { if cfg.cooldown > lag then cfg.cooldown else lag }

  /** The job is called for late in one turn, and again as soon as its mark lets it. */
  function TwoCalls(cfg: Config, id: int, lag: nat): seq<Turn> {
    [OneJob(cfg, id, 0, lag), OneJob(cfg, id, Again(cfg, lag), Again(cfg, lag))]
  }

  lemma OneJobTurn(cfg: Config, id: int, now: int, callAt: int, checked: map<string, int>, log: seq<Check>)
    requires cfg.max >= 1 && now >= 0 && !Recent(cfg, checked, FormatID(id), now)
    ensures AfterTurn(cfg, checked, log, OneJob(cfg, id, now, callAt))
         == State(checked[FormatID(id) := now], log + [Tried(FormatID(id), now, callAt, false)], 0)
  {
    OneListed(cfg, id, now, callAt);
    var l := Listed(DueJob(cfg, id), NoJob, false, callAt);
    var s := State(checked, log, 0);
    assert [l][1..] == [];
    assert All(cfg, s, [l], now) == All(cfg, One(cfg, s, l, now), [], now);
  }

  lemma OneListed(cfg: Config, id: int, now: int, callAt: int)
    ensures JobsOf(OneJob(cfg, id, now, callAt).runs.value) == [Listed(DueJob(cfg, id), NoJob, false, callAt)]
  {
    var l := [Listed(DueJob(cfg, id), NoJob, false, callAt)];
    var runs := [Run(1, Some(l))];
    assert runs[1..] == [] && l + [] == l;
  }

  lemma TwoCallsLog(cfg: Config, id: int, lag: nat)
    requires cfg.max >= 1
    ensures AfterTurns(cfg, map[], [], TwoCalls(cfg, id, lag)).log
         == [Tried(FormatID(id), 0, lag, false), Tried(FormatID(id), Again(cfg, lag), Again(cfg, lag), false)]
  {
    var turns := TwoCalls(cfg, id, lag);
    var one := [OneJob(cfg, id, 0, lag)];
    assert turns[..|turns| - 1] == one && one[..|one| - 1] == [];
    OneJobTurn(cfg, id, 0, lag, map[], []);
    var s := AfterTurns(cfg, map[], [], one);
    assert AfterTurns(cfg, map[], [], []) == State(map[], [], 0);
    assert s == AfterTurn(cfg, map[], [], one[0]);
    assert [] + [Tried(FormatID(id), 0, lag, false)] == [Tried(FormatID(id), 0, lag, false)];
    OneJobTurn(cfg, id, Again(cfg, lag), Again(cfg, lag), s.checked, s.log);
  }

  lemma TwoCallsTimed(cfg: Config, id: int, lag: nat)
    ensures WellTimed(TwoCalls(cfg, id, lag), Again(cfg, lag))
  {
    OneListed(cfg, id, 0, lag);
    OneListed(cfg, id, Again(cfg, lag), Again(cfg, lag));
    var turns := TwoCalls(cfg, id, lag);
    var one := [OneJob(cfg, id, 0, lag)];
    assert turns[..|turns| - 1] == one && one[..|one| - 1] == [];
    assert WellTimed([], 0);
    assert WellTimed(one, Again(cfg, lag));
  }

  /** For any lag, the two calls can be exactly that far apart. */
  lemma LateCallComesAgain(cfg: Config, id: int, lag: nat)
    requires cfg.max >= 1
    ensures exists later :: Repeated(cfg, TwoCalls(cfg, id, lag), later, 0, 1, lag)
    ensures CallsOfOneJob(AfterTurns(cfg, map[], [], TwoCalls(cfg, id, lag)).log, 0, 1)
    ensures Apart(cfg, TwoCalls(cfg, id, lag), 0, 1) == AtLeastZero(cfg.cooldown - lag)
  {
    TwoCallsLog(cfg, id, lag);
    TwoCallsTimed(cfg, id, lag);
    assert Repeated(cfg, TwoCalls(cfg, id, lag), Again(cfg, lag), 0, 1, lag);
  }

  /** The repeated calls of a job are never closer than d. */
  ghost predicate NeverCloser(cfg: Config, lag: int, d: int) {
    forall turns, later, i: nat, j: nat :: Repeated(cfg, turns, later, i, j, lag) ==> Apart(cfg, turns, i, j) >= d
  }

  /** After a call with the given lag the next one for the job is guaranteed to be at least d later if
      and only if d is at most what the lag leaves of the cooldown; so the whole cooldown lies between
      them if and only if there was no lag. */
  lemma CallSpacingExact(cfg: Config, lag: nat, d: int)
    requires cfg.max >= 1
    ensures NeverCloser(cfg, lag, d) <==> d <= AtLeastZero(cfg.cooldown - lag)
    ensures cfg.cooldown > 0 ==> (NeverCloser(cfg, lag, cfg.cooldown) <==> lag == 0)
  {
    LateCallComesAgain(cfg, 1, lag);
    var turns := TwoCalls(cfg, 1, lag);
    var later :| Repeated(cfg, turns, later, 0, 1, lag);
    forall turns, later, i: nat, j: nat | Repeated(cfg, turns, later, i, j, lag)
      ensures Apart(cfg, turns, i, j) >= AtLeastZero(cfg.cooldown - lag)
    {
      CallsAreSpaced(cfg, turns, later, i, j, lag);
    }
  }

  /** How large the lag gets is not limited by the quota: failing calls do not count, so every due job
      of a turn is called for, however many there are. */
  lemma {:induction false} FailuresAreFree(cfg: Config, s: State, ls: seq<Listed>, now: int)
    requires s.dispatched < cfg.max && cfg.cooldown > 0
    requires forall i :: 0 <= i < |ls| ==>
               Due(cfg, ls[i].job, now) && ls[i].probe.NoJob? && !ls[i].dispatchOk && !Recent(cfg, s.checked, FormatID(ls[i].job.id), now)
    requires forall i, j :: 0 <= i < j < |ls| ==> FormatID(ls[i].job.id) != FormatID(ls[j].job.id)
    ensures All(cfg, s, ls, now).log == s.log + seq(|ls|, i requires 0 <= i < |ls| => Tried(FormatID(ls[i].job.id), now, ls[i].callAt, false))
    decreases |ls|
  {
    if ls != [] {
      FailuresAreFree(cfg, One(cfg, s, ls[0], now), ls[1..], now);
    }
  }

  // ----- progress -----

  /** The ids of the listed jobs that are due. */
  function DueIds(cfg: Config, ls: seq<Listed>, now: int): set<string> {
    set l | l in ls && Due(cfg, l.job, now) :: FormatID(l.job.id)
  }

  /** The id is listed as due, and the Job listing for it is answered. */
  predicate Offers(cfg: Config, ls: seq<Listed>, now: int, id: string) {
    exists l :: l in ls && FormatID(l.job.id) == id && Due(cfg, l.job, now) && !l.probe.ProbeError?
  }

  /** Those of the ids checked in the window that began at `first`. */
  function Done(ids: set<string>, checked: map<string, int>, first: int): set<string> {
    set id | id in ids && id in checked && checked[id] >= first
  }

  /** The id was checked within a cooldown before the window, or in it. */
  predicate Covered(cfg: Config, id: string, checked: map<string, int>, first: int) {
    id in checked && checked[id] > first - cfg.cooldown
  }

  /** Within one cooldown from `first` on. */
  predicate Within(cfg: Config, now: int, first: int) { first <= now < first + cfg.cooldown }

  /** One job: a success is one more that is done; and unless the quota is used up the job was checked
      recently enough, if it is due and its listing is answered. */
  lemma OneProgress(cfg: Config, s: State, ids: set<string>, l: Listed, now: int, first: int)
    requires Within(cfg, now, first) && (Due(cfg, l.job, now) ==> FormatID(l.job.id) in ids)
    ensures var t := One(cfg, s, l, now);
            && |Done(ids, t.checked, first)| - |Done(ids, s.checked, first)| >= t.dispatched - s.dispatched
            && (t.dispatched < cfg.max && Due(cfg, l.job, now) && !l.probe.ProbeError? ==> Covered(cfg, FormatID(l.job.id), t.checked, first))
  {
    if One(cfg, s, l, now) != s {
      DoneMore(ids, s.checked, FormatID(l.job.id), now, first);
    }
  }

  lemma DoneMore(ids: set<string>, checked: map<string, int>, id: string, now: int, first: int)
    requires id in ids && now >= first && id !in Done(ids, checked, first)
    ensures |Done(ids, checked[id := now], first)| == |Done(ids, checked, first)| + 1
  {
    assert Done(ids, checked[id := now], first) == Done(ids, checked, first) + {id};
  }

  /** What is covered or done stays so, whosever turn it is. */
  lemma {:induction false} AllKeeps(cfg: Config, s: State, ids: set<string>, id: string, ls: seq<Listed>, now: int, first: int)
    requires Within(cfg, now, first)
    ensures var t := All(cfg, s, ls, now);
            && (Covered(cfg, id, s.checked, first) ==> Covered(cfg, id, t.checked, first))
            && Done(ids, s.checked, first) <= Done(ids, t.checked, first)
    decreases |ls|
  {
    if ls != [] {
      AllKeeps(cfg, One(cfg, s, ls[0], now), ids, id, ls[1..], now, first);
    }
  }

  lemma {:induction false} AllProgress(cfg: Config, s: State, ids: set<string>, id: string, ls: seq<Listed>, now: int, first: int)
    requires Within(cfg, now, first) && DueIds(cfg, ls, now) <= ids
    ensures var t := All(cfg, s, ls, now);
            && |Done(ids, t.checked, first)| - |Done(ids, s.checked, first)| >= t.dispatched - s.dispatched
            && s.dispatched <= t.dispatched
            && (t.dispatched < cfg.max && Offers(cfg, ls, now, id) ==> Covered(cfg, id, t.checked, first))
    decreases |ls|
  {
    if ls != [] {
      var s' := One(cfg, s, ls[0], now);
      assert ls[0] in ls && forall l :: l in ls <==> l == ls[0] || l in ls[1..];
      assert DueIds(cfg, ls[1..], now) <= DueIds(cfg, ls, now);
      assert Due(cfg, ls[0].job, now) ==> FormatID(ls[0].job.id) in DueIds(cfg, ls, now);
      OneProgress(cfg, s, ids, ls[0], now, first);
      AllProgress(cfg, s', ids, id, ls[1..], now, first);
      AllKeeps(cfg, s', ids, id, ls[1..], now, first);
    }
  }

  /** A turn in which the id is offered, and no other ids than these are due. */
  ghost predicate TurnOf(cfg: Config, ids: set<string>, id: string, t: Turn) {
    t.runs.Some? && Offers(cfg, JobsOf(t.runs.value), t.now, id) && DueIds(cfg, JobsOf(t.runs.value), t.now) <= ids
  }

  /** One more turn: what is covered and done stays so; and in such a turn the id gets covered, or `max`
      more are done than before. */
  lemma TurnProgress(cfg: Config, checked: map<string, int>, log: seq<Check>, ids: set<string>, id: string, t: Turn, first: int)
    requires cfg.max >= 0 && Within(cfg, t.now, first)
    ensures var s := AfterTurn(cfg, checked, log, t);
            && (Covered(cfg, id, checked, first) ==> Covered(cfg, id, s.checked, first))
            && |Done(ids, s.checked, first)| >= |Done(ids, checked, first)|
            && (TurnOf(cfg, ids, id, t) ==>
                  Covered(cfg, id, s.checked, first) || |Done(ids, s.checked, first)| >= |Done(ids, checked, first)| + cfg.max)
  {
    var s := AfterTurn(cfg, checked, log, t);
    if t.runs.Some? {
      AllKeeps(cfg, State(checked, log, 0), ids, id, JobsOf(t.runs.value), t.now, first);
      SubsetLess(Done(ids, checked, first), Done(ids, s.checked, first));
    }
    if TurnOf(cfg, ids, id, t) {
      AllProgress(cfg, State(checked, log, 0), ids, id, JobsOf(t.runs.value), t.now, first);
    }
  }

  function HowMany(marks: seq<bool>): nat {
    if marks == [] then 0 else HowMany(marks[..|marks| - 1]) + if marks[|marks| - 1] then 1 else 0
  }

  /** All turns are in the window, and the marked ones are turns of the id. */
  ghost predicate Window(cfg: Config, ids: set<string>, id: string, turns: seq<Turn>, marked: seq<bool>, first: int) {
    && |marked| == |turns|
    && (forall i :: 0 <= i < |turns| ==> Within(cfg, turns[i].now, first))
    && (forall i :: 0 <= i < |turns| && marked[i] ==> TurnOf(cfg, ids, id, turns[i]))
  }

  lemma {:induction false} TurnsProgress(cfg: Config, checked: map<string, int>, log: seq<Check>, ids: set<string>, id: string,
                                         turns: seq<Turn>, marked: seq<bool>, first: int)
    requires cfg.max >= 0 && Window(cfg, ids, id, turns, marked, first)
    ensures var s := AfterTurns(cfg, checked, log, turns);
            Covered(cfg, id, s.checked, first) || |Done(ids, s.checked, first)| >= HowMany(marked) * cfg.max
  {
    if turns != [] {
      var n := |turns| - 1;
      TurnsProgress(cfg, checked, log, ids, id, turns[..n], marked[..n], first);
      var s := AfterTurns(cfg, checked, log, turns[..n]);
      TurnProgress(cfg, s.checked, s.log, ids, id, turns[n], first);
      OneMore(HowMany(marked[..n]), HowMany(marked[..n]) + 1, cfg.max);
    }
  }

  lemma OneMore(k: nat, n: nat, max: nat)
    requires n == k + 1
    ensures n * max == k * max + max
  {
  }

  lemma SubsetSize<T>(a: set<T>, b: set<T>)
    requires a <= b && |a| >= |b|
    ensures a == b
  {
    if a != b {
      var x :| x in b && x !in a;
      assert |a + {x}| == |a| + 1;
      SubsetLess(a + {x}, b);
    }
  }

  lemma {:induction false} SubsetLess<T>(a: set<T>, b: set<T>)
    requires a <= b
    ensures |a| <= |b|
  {
    if a != {} {
      var x :| x in a;
      SubsetLess(a - {x}, b - {x});
    }
  }

  /** Every time in the map is that of a check in the log. */
  ghost predicate Logged(checked: map<string, int>, log: seq<Check>) {
    forall id :: id in checked ==> exists i :: 0 <= i < |log| && log[i].id == id && log[i].at == checked[id]
  }

  lemma OneLogged(cfg: Config, s: State, l: Listed, now: int)
    requires Logged(s.checked, s.log)
    ensures var t := One(cfg, s, l, now); Logged(t.checked, t.log)
  {
    var t := One(cfg, s, l, now);
    assert t != s ==> t.log[|s.log|].at == now && t.log[|s.log|].id == FormatID(l.job.id);
    assert forall i :: 0 <= i < |s.log| ==> t.log[i] == s.log[i];
  }

  lemma {:induction false} AllLogged(cfg: Config, s: State, ls: seq<Listed>, now: int)
    requires Logged(s.checked, s.log)
    ensures var t := All(cfg, s, ls, now); Logged(t.checked, t.log)
    decreases |ls|
  {
    if ls != [] {
      OneLogged(cfg, s, ls[0], now);
      AllLogged(cfg, One(cfg, s, ls[0], now), ls[1..], now);
    }
  }

  lemma {:induction false} TurnsLogged(cfg: Config, checked: map<string, int>, log: seq<Check>, turns: seq<Turn>)
    requires Logged(checked, log)
    ensures var s := AfterTurns(cfg, checked, log, turns); Logged(s.checked, s.log)
  {
    if turns != [] {
      var pre, t := turns[..|turns| - 1], turns[|turns| - 1];
      TurnsLogged(cfg, checked, log, pre);
      var s := AfterTurns(cfg, checked, log, pre);
      if t.runs.Some? {
        AllLogged(cfg, State(s.checked, s.log, 0), JobsOf(t.runs.value), t.now);
      }
    }
  }

  /** After the turns the log has a check of the id, in the window or within a cooldown before it. */
  ghost predicate Reached(cfg: Config, checked: map<string, int>, log: seq<Check>, id: string, turns: seq<Turn>, first: int) {
    var s := AfterTurns(cfg, checked, log, turns);
    exists i :: 0 <= i < |s.log| && s.log[i].id == id && s.log[i].at > first - cfg.cooldown
  }

  /** A history of turns inside one cooldown window, of whichever repositories and whatever fails in
      them: if a job is listed as due, and the Job listing for it answered, in K of them, and these list
      n due jobs in all with K * max >= n, then it was checked (tried, or found to have a Job) in the
      window or within a cooldown before it. */
  lemma EveryJobGetsItsTurn(cfg: Config, checked: map<string, int>, log: seq<Check>, ids: set<string>, id: string,
                            turns: seq<Turn>, marked: seq<bool>, first: int)
    requires cfg.max >= 0 && cfg.cooldown > 0 && id in ids && Window(cfg, ids, id, turns, marked, first)
    requires Logged(checked, log) && HowMany(marked) * cfg.max >= |ids|
    ensures Reached(cfg, checked, log, id, turns, first)
  {
    TurnsProgress(cfg, checked, log, ids, id, turns, marked, first);
    TurnsLogged(cfg, checked, log, turns);
    var s := AfterTurns(cfg, checked, log, turns);
    var done := Done(ids, s.checked, first);
    if !Covered(cfg, id, s.checked, first) {
      SubsetSize(done, ids);
    }
    assert id in done || Covered(cfg, id, s.checked, first);
  }

  // ----- fewer turns are not enough -----

  /** n due jobs, none of which has a Job, and Dispatch would succeed for each. */
  function Queue(cfg: Config, n: nat): seq<Listed> {
    seq(n, i => Listed(WorkflowJob(i, 0, "queued", Some(-cfg.stale)), NoJob, true, 0))
  }

  /** Of the jobs 0 to n - 1 the first m were checked. */
  ghost predicate FirstChecked(n: nat, m: nat, checked: map<string, int>, log: seq<Check>) {
    && (forall i :: 0 <= i < n ==> (FormatID(i) in checked <==> i < m))
    && (forall i :: 0 <= i < m <= n ==> FormatID(i) in checked && checked[FormatID(i)] == 0)
    && (forall i :: 0 <= i < |log| ==> log[i].id in checked)
  }

  lemma CheckNext(n: nat, m: nat, checked: map<string, int>, log: seq<Check>, c: Check)
    requires m < n && FirstChecked(n, m, checked, log) && c.id == FormatID(m)
    ensures FirstChecked(n, m + 1, checked[FormatID(m) := 0], log + [c])
  {
    forall i | 0 <= i < n ensures FormatID(i) == FormatID(m) ==> i == m {
      FormatParse(i);
      FormatParse(m);
    }
  }

  /** One turn checks the next `max` of them. */
  lemma {:induction false} QueueTurn(cfg: Config, s: State, n: nat, m: nat, j: nat)
    requires cfg.max >= 0 && cfg.cooldown > 0 && m + cfg.max <= n && j <= n
    requires s.dispatched <= cfg.max && FirstChecked(n, m + s.dispatched, s.checked, s.log)
    requires s.dispatched == cfg.max || (j <= m && s.dispatched == 0) || j == m + s.dispatched
    ensures var t := All(cfg, s, Queue(cfg, n)[j..], 0); FirstChecked(n, m + cfg.max, t.checked, t.log)
    decreases n - j
  {
    var q := Queue(cfg, n);
    if s.dispatched == cfg.max {
      AllSpent(cfg, s, q[j..], 0);
    } else {
      assert q[j..][0] == q[j] && q[j..][1..] == q[j + 1..];
      if j < m {
        assert FormatID(j) in s.checked;
      } else {
        CheckNext(n, j, s.checked, s.log, Tried(FormatID(j), 0, 0, true));
      }
      QueueTurn(cfg, One(cfg, s, q[j], 0), n, m, j + 1);
    }
  }

  function QueueTurns(cfg: Config, n: nat, k: nat): seq<Turn> { seq(k, i => Turn(Some([Run(0, Some(Queue(cfg, n)))]), 0)) }

  lemma {:induction false} QueueHistory(cfg: Config, n: nat, k: nat)
    requires cfg.max >= 0 && cfg.cooldown > 0 && k * cfg.max <= n
    ensures var s := AfterTurns(cfg, map[], [], QueueTurns(cfg, n, k)); FirstChecked(n, k * cfg.max, s.checked, s.log)
  {
    if k > 0 {
      OneMore(k - 1, k, cfg.max);
      QueueHistory(cfg, n, k - 1);
      var turns := QueueTurns(cfg, n, k);
      assert turns[..k - 1] == QueueTurns(cfg, n, k - 1);
      var s := AfterTurns(cfg, map[], [], turns[..k - 1]);
      assert JobsOf(turns[k - 1].runs.value) == Queue(cfg, n)[0..] by { QueueJobs(cfg, n); }
      QueueTurn(cfg, State(s.checked, s.log, 0), n, (k - 1) * cfg.max, 0);
    }
  }

  lemma QueueJobs(cfg: Config, n: nat)
    ensures JobsOf([Run(0, Some(Queue(cfg, n)))]) == Queue(cfg, n)[0..]
  {
    assert [Run(0, Some(Queue(cfg, n)))][1..] == [];
  }

  function QueueIds(n: nat): set<string> { set i | 0 <= i < n :: FormatID(i) }

  lemma {:induction false} QueueSize(n: nat)
    ensures |QueueIds(n)| == n
  {
    if n > 0 {
      QueueSize(n - 1);
      assert FormatID(n - 1) !in QueueIds(n - 1) by {
        forall i | 0 <= i < n - 1 ensures FormatID(i) != FormatID(n - 1) {
          FormatParse(i);
          FormatParse(n - 1);
        }
      }
      assert QueueIds(n) == QueueIds(n - 1) + {FormatID(n - 1)};
    }
  }

  lemma {:induction false} AllMarked(k: nat)
    ensures HowMany(seq(k, i => true)) == k
  {
    if k > 0 {
      AllMarked(k - 1);
      assert seq(k, i => true)[..k - 1] == seq(k - 1, i => true);
    }
  }

  /** With K * max < n the last of n jobs may be left out of K turns. */
  lemma LastOneWaits(cfg: Config, n: nat, k: nat)
    requires cfg.max >= 0 && cfg.cooldown > 0 && k * cfg.max < n
    ensures Window(cfg, QueueIds(n), FormatID(n - 1), QueueTurns(cfg, n, k), seq(k, i => true), 0)
    ensures !Reached(cfg, map[], [], FormatID(n - 1), QueueTurns(cfg, n, k), 0)
  {
    QueueHistory(cfg, n, k);
    QueueJobs(cfg, n);
    var q := Queue(cfg, n);
    assert q[0..] == q && q[n - 1] in q;
    assert DueIds(cfg, q, 0) <= QueueIds(n);
  }

  /** In every such history, with k turns of the job and n due jobs in all, the job is reached. */
  ghost predicate AlwaysReached(cfg: Config, k: nat, n: nat) {
    forall checked, log, ids, id, turns, marked, first ::
      Logged(checked, log) && id in ids && |ids| == n && Window(cfg, ids, id, turns, marked, first) && HowMany(marked) == k
      ==> Reached(cfg, checked, log, id, turns, first)
  }

  /** It is if and only if the quota of the k turns is as large as n. */
  lemma TurnsNeeded(cfg: Config, k: nat, n: nat)
    requires cfg.max >= 0 && cfg.cooldown > 0 && n > 0
    ensures AlwaysReached(cfg, k, n) <==> k * cfg.max >= n
  {
    if k * cfg.max >= n {
      forall checked, log, ids, id, turns, marked, first
        | Logged(checked, log) && id in ids && |ids| == n && Window(cfg, ids, id, turns, marked, first) && HowMany(marked) == k
        ensures Reached(cfg, checked, log, id, turns, first)
      {
        EveryJobGetsItsTurn(cfg, checked, log, ids, id, turns, marked, first);
      }
    } else {
      LastOneWaits(cfg, n, k);
      QueueSize(n);
      AllMarked(k);
      assert FormatID(n - 1) in QueueIds(n);
      assert Logged(map[], []);
    }
  }
}
