/** What one step does to the cluster, stage by stage, in terms of what the API server, GitHub and the
    mutex registries store. */
module Steps {
  import opened Options
  import opened Names
  import opened LeaseLock
  import opened Protocol

  /** Nothing stored by the API server or GitHub changes. */
  predicate NoEffect(s: State, t: State) {
    t.leases == s.leases && t.jobs == s.jobs && t.secrets == s.secrets && t.runners == s.runners
  }

  /** A step touches no call but its own, and an API call that fails changes nothing that is stored. */
  lemma FailuresHaveNoEffect(s: State, p: nat, r: Reply)
    requires CanAct(s, p)
    ensures var t := Next(s, Act(p, r));
            && t.calls.Keys == s.calls.Keys && (forall q :: q in s.calls && q != p ==> t.calls[q] == s.calls[q])
            && (!r.good ==> NoEffect(s, t))
  {
  }

  predicate Checking(pc: Pc) { pc.FirstCheck? || pc.SecondCheck? || pc.ThirdCheck? }

  /** Where a duplicate check leads to. */
  function OnClear(pc: Pc): Pc
    requires Checking(pc)
  {
    match pc case FirstCheck => FindMutex case SecondCheck => ReadLease case ThirdCheck => MintRunner
  }

  function OnFinding(pc: Pc): Pc
    requires Checking(pc)
  {
    match pc case FirstCheck => Returned case SecondCheck => ReleaseMutex case ThirdCheck => ReleaseLease
  }

  /** It ends the call with an error if it fails, with nil if there is a Job of its id, and lets it go on
      otherwise. */
  lemma CheckStep(s: State, p: nat, r: Reply)
    requires CanAct(s, p) && Checking(s.calls[p].pc)
    ensures var c, t := s.calls[p], Next(s, Act(p, r));
            && NoEffect(s, t)
            && t.calls[p] == if !r.good then c.(pc := OnFinding(c.pc), ok := false)
                             else if exists n :: n in s.jobs && s.jobs[n].job == c.key.job then c.(pc := OnFinding(c.pc), ok := true)
                             else c.(pc := OnClear(c.pc))
  {
  }

  /** The mutex of a process and job is looked up, or made; taken; and given back. */
  lemma MutexStep(s: State, p: nat, r: Reply)
    requires CanAct(s, p) && (s.calls[p].pc.FindMutex? || s.calls[p].pc.AwaitMutex? || s.calls[p].pc.ReleaseMutex?)
    ensures var c, t, at := s.calls[p], Next(s, Act(p, r)), (s.calls[p].proc, s.calls[p].key.job);
            && NoEffect(s, t)
            && (c.pc.FindMutex? ==>
                  && t.locks == (if at in s.locks then s.locks else s.locks[at := s.nextMutex])
                  && t.calls[p] == c.(pc := AwaitMutex, mutex := t.locks[at]) && t.held == s.held)
            && (c.pc.AwaitMutex? ==>
                  c.mutex !in s.held && t.calls[p] == c.(pc := SecondCheck) && t.locks == s.locks && t.held == s.held[c.mutex := p])
            && (c.pc.ReleaseMutex? ==> t.calls[p] == c.(pc := Returned) && t.locks == s.locks && t.held == s.held - {c.mutex})
  {
  }

  /** The lease is read, and judged by the clock: an active one ends the call with nil. */
  lemma ReadStep(s: State, p: nat, r: Reply)
    requires CanAct(s, p) && (s.calls[p].pc.ReadLease? || s.calls[p].pc.JudgeLease?)
    ensures var c, t, job := s.calls[p], Next(s, Act(p, r)), s.calls[p].key.job;
            && NoEffect(s, t)
            && t.calls[p] ==
               if c.pc.ReadLease? then
                 if !r.good then c.(pc := ReleaseMutex, ok := false)
                 else c.(pc := JudgeLease, seen := if job in s.leases then Some(s.leases[job]) else None)
               else if c.seen.Some? && HolderActive(c.seen.value, s.ttl, s.now) then c.(pc := ReleaseMutex, ok := true)
               else c.(pc := if c.seen.Some? then UpdateLease else CreateLease, readAt := s.now)
  {
  }

  /** A lease is created if there is none, and nil returned if one is in the way; it is replaced if it is
      still the version that was read, and an error returned if it is not. */
  lemma ClaimStep(s: State, p: nat, r: Reply)
    requires CanAct(s, p) && (s.calls[p].pc.CreateLease? || s.calls[p].pc.UpdateLease?)
    ensures var c, t, job := s.calls[p], Next(s, Act(p, r)), s.calls[p].key.job;
            var won := r.good && if c.pc.CreateLease? then job !in s.leases
                                 else job in s.leases && c.seen.Some? && s.leases[job].rv == c.seen.value.rv;
            && t.jobs == s.jobs && t.secrets == s.secrets && t.runners == s.runners
            && t.leases == (if won then s.leases[job := Lease(Some(c.identity), Some(s.ttl / 1_000_000), Some(c.readAt), s.nextRv)] else s.leases)
            && t.calls[p] == if won then c.(pc := ThirdCheck, rv := s.nextRv) else c.(pc := ReleaseMutex, ok := c.pc.CreateLease? && r.good)
  {
  }

  /** A runner is minted under the call's name, and its id and creation time remembered. */
  lemma MintStep(s: State, p: nat, r: Reply)
    requires CanAct(s, p) && s.calls[p].pc.MintRunner?
    ensures var c, t, id := s.calls[p], Next(s, Act(p, r)), s.nextRunner;
            && t.leases == s.leases && t.jobs == s.jobs && t.secrets == s.secrets
            && if r.good then
                 && t.runners == s.runners[id := Runner("ghs-" + c.key.run + "-" + c.key.job, if r.stamped then Some(s.now) else None, Some(p))]
                 && t.calls[p] == c.(pc := CreateSecret, runner := Some(id), reported := r.reported, mintedAt := s.now)
               else t.runners == s.runners && t.calls[p] == if r.giveUp then c.(pc := ReleaseLease, ok := false) else c
  {
  }

  /** The Secret is created, without an owner, unless its name is taken. */
  lemma SecretStep(s: State, p: nat, r: Reply)
    requires CanAct(s, p) && s.calls[p].pc.CreateSecret? && s.calls[p].runner.Some?
    ensures var c, t, name := s.calls[p], Next(s, Act(p, r)), "jit-" + s.calls[p].key.run + "-" + s.calls[p].key.job;
            && t.leases == s.leases && t.jobs == s.jobs && t.runners == s.runners
            && if r.good && name !in s.secrets then
                 t.secrets == s.secrets[name := Secret(c.runner.value, None, Some(p))] && t.calls[p] == c.(pc := CreateJob)
               else t.secrets == s.secrets && t.calls[p] == if r.giveUp then c.(pc := DeregisterRunner, ok := false) else c
  {
  }

  /** The Job is created with a fresh uid, unless its name is taken. */
  lemma JobStep(s: State, p: nat, r: Reply)
    requires CanAct(s, p) && s.calls[p].pc.CreateJob?
    ensures var c, t, name := s.calls[p], Next(s, Act(p, r)), "ghs-job-" + s.calls[p].key.run + "-" + s.calls[p].key.job;
            && t.leases == s.leases && t.secrets == s.secrets && t.runners == s.runners
            && if r.good && name !in s.jobs then
                 && t.jobs == s.jobs[name := Job(c.key.job, s.nextUid, Some(p))] && t.nextUid == s.nextUid + 1
                 && t.calls[p] == c.(pc := SetOwner, uid := Some(s.nextUid))
               else t.jobs == s.jobs && t.calls[p] == if r.giveUp then c.(pc := DropSecretNoJob, ok := false) else c
  {
  }

  /** The Secret is overwritten with the call's config and Job, if there is one of its name; then the call
      is to return nil. */
  lemma OwnerStep(s: State, p: nat, r: Reply)
    requires CanAct(s, p) && s.calls[p].pc.SetOwner? && s.calls[p].runner.Some?
    ensures var c, t, name := s.calls[p], Next(s, Act(p, r)), "jit-" + s.calls[p].key.run + "-" + s.calls[p].key.job;
            && t.leases == s.leases && t.jobs == s.jobs && t.runners == s.runners
            && if r.good && name in s.secrets then
                 && t.secrets == s.secrets[name := Secret(c.runner.value, c.uid, s.secrets[name].maker)]
                 && t.calls[p] == c.(pc := ReleaseLease, ok := true)
               else t.secrets == s.secrets && t.calls[p] == if r.giveUp then c.(pc := DropSecretNoOwner, ok := false) else c
  {
  }

  /** The deletions: of the Secret of the call's name, of the runner if GitHub reported its id, of the
      lease of the job. Whether they work or not the call goes on, its result unchanged. */
  lemma DropStep(s: State, p: nat, r: Reply)
    requires CanAct(s, p)
    requires var pc := s.calls[p].pc; pc.DropSecretNoJob? || pc.DropSecretNoOwner? || pc.DeregisterRunner? || pc.ReleaseLease?
    ensures var c, t := s.calls[p], Next(s, Act(p, r));
            && t.jobs == s.jobs
            && t.secrets == (if r.good && (c.pc.DropSecretNoJob? || c.pc.DropSecretNoOwner?)
                             then s.secrets - {"jit-" + c.key.run + "-" + c.key.job} else s.secrets)
            && t.runners == (if r.good && c.pc.DeregisterRunner? && c.reported && c.runner.Some?
                             then s.runners - {c.runner.value} else s.runners)
            && t.leases == (if r.good && c.pc.ReleaseLease? then s.leases - {c.key.job} else s.leases)
            && t.calls[p] == c.(pc := match c.pc
                                      case DropSecretNoJob => DeregisterRunner
                                      case ReleaseLease => ReleaseMutex
                                      case _ => ReleaseLease)
  {
  }

  /** Time passes; and a call with a new number may be started in any process that has not crashed: it
      begins with the first duplicate check and has got nothing yet. */
  lemma StartStep(s: State, d: nat, p: nat, proc: nat, identity: string, key: Key)
    ensures Enabled(s, Tick(d)) && Next(s, Tick(d)) == s.(now := s.now + d)
    ensures Enabled(s, Start(p, proc, identity, key)) <==> p !in s.calls && proc !in s.dead && identity != ""
    ensures Enabled(s, Start(p, proc, identity, key)) ==>
              var t := Next(s, Start(p, proc, identity, key));
              && t == s.(calls := t.calls) && t.calls == s.calls[p := t.calls[p]]
              && var c := t.calls[p];
                && c.proc == proc && c.identity == identity && c.key == key && c.pc.FirstCheck? && !c.ok
                && c.runner.None? && !c.reported && c.uid.None? && c.seen.None?
  {
  }

  /** What others do: a crash ends all calls of a process, and nothing else; a Job that is there may be
      deleted at any time, a Secret exactly when its owner is gone. */
  lemma OthersStep(s: State, proc: nat, n: string)
    ensures var t := Next(s, Crash(proc));
            && NoEffect(s, t) && t.dead == s.dead + {proc} && t.calls.Keys == s.calls.Keys
            && forall p :: p in s.calls ==>
                 t.calls[p] == if s.calls[p].proc == proc && s.calls[p].pc !in [Returned, Crashed] then s.calls[p].(pc := Crashed) else s.calls[p]
    ensures Enabled(s, DeleteJob(n)) <==> n in s.jobs
    ensures n in s.jobs ==> Next(s, DeleteJob(n)) == s.(jobs := s.jobs - {n})
    ensures Enabled(s, Collect(n)) <==> n in s.secrets && s.secrets[n].owner.Some? && forall j :: j in s.jobs ==> Some(s.jobs[j].uid) != s.secrets[n].owner
    ensures Enabled(s, Collect(n)) ==> Next(s, Collect(n)) == s.(secrets := s.secrets - {n})
  {
  }

  /** A sweep picks a listed runner that is stamped and was old enough when the pass began; an active
      lease ends the look at it, a failed check of the lease does not; a Job, or a failed listing of the
      Jobs, ends it; and then the runner is removed, if that works. */
  lemma SweepActStep(s: State, w: nat, good: bool)
    requires CanSweep(s, w)
    ensures var v, t := s.sweeps[w], Next(s, SweepAct(w, good));
            var id, job := v.stage.id, ParseJobIDFromRunnerName(v.listed[v.stage.id].name).value;
            && t.leases == s.leases && t.jobs == s.jobs && t.secrets == s.secrets && t.calls == s.calls
            && t.runners == (if v.stage.Remove? && good then s.runners - {id} else s.runners)
            && t.sweeps == s.sweeps[w := v.(stage :=
                 if v.stage.CheckLock? && !(good && job in s.leases && HolderActive(s.leases[job], s.ttl, s.now)) then CheckJobs(id)
                 else if v.stage.CheckJobs? && good && (forall n :: n in s.jobs ==> s.jobs[n].job != job) then Remove(id)
                 else Idle)]
  {
  }

  lemma SweepPickStep(s: State, w: nat, id: nat)
    requires w in s.sweeps
    ensures Enabled(s, SweepBegin(w)) <==> s.sweeps[w].stage.Idle?
    ensures Enabled(s, SweepList(w)) <==> s.sweeps[w].stage.Idle?
    ensures Enabled(s, SweepPick(w, id)) <==>
            && s.sweeps[w].stage.Idle? && id in s.sweeps[w].listed && s.sweeps[w].listed[id].created.Some?
            && s.sweeps[w].passNow >= s.sweeps[w].listed[id].created.value + s.grace
            && NamesRunner(s.sweeps[w].listed[id].name)
    ensures Enabled(s, SweepPick(w, id)) ==> Next(s, SweepPick(w, id)) == s.(sweeps := s.sweeps[w := s.sweeps[w].(stage := CheckLock(id))])
    ensures s.sweeps[w].stage.Idle? ==> Next(s, SweepBegin(w)) == s.(sweeps := s.sweeps[w := Sweep(s.now, map[], Idle)])
    ensures s.sweeps[w].stage.Idle? ==> Next(s, SweepList(w)) == s.(sweeps := s.sweeps[w := s.sweeps[w].(listed := s.runners)])
  {
    if id in s.sweeps[w].listed {
      ParsesExact(s.sweeps[w].listed[id].name);
    }
  }
}
