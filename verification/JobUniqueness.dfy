/** One Job per GitHub job: no runner is minted while a Job for the id exists, and at most one
    dispatch creates a Job for it. */
module JobUniqueness {
  import opened Options
  import opened Names
  import opened Protocol
  import opened Exclusion

  /** At most one call for `job` holds the lease. */
  ghost predicate Alone(s: State, job: string) {
    forall p, q ::
      p in s.calls && q in s.calls && Holding(s.calls[p].pc) && Holding(s.calls[q].pc)
      && s.calls[p].key.job == job && s.calls[q].key.job == job
      ==> p == q
  }

  /** Past the third duplicate check and not yet past creating the Job. */
  predicate BeforeJob(pc: Pc) { pc.MintRunner? || pc.CreateSecret? || pc.CreateJob? }

  /** No Job exists for a call that is still to create it. */
  ghost predicate NoJobYet(s: State, job: string) {
    forall p :: p in s.calls && s.calls[p].key.job == job && BeforeJob(s.calls[p].pc) ==> !HasJob(s, job)
  }

  lemma BeforeSelf(s: State, c: Call, r: Reply)
    requires BeforeJob(CallAfter(s, c, r).pc)
    ensures Building(c.pc) && (BeforeJob(c.pc) || (c.pc.ThirdCheck? && !HasJob(s, c.key.job)))
    ensures !MakesJob(s, c, r)
  {
  }

  lemma NoJobActStep(s: State, p: nat, r: Reply, job: string)
    requires NoJobYet(s, job) && Alone(s, job) && CanAct(s, p)
    ensures NoJobYet(ActStep(s, p, r), job)
  {
    var t := ActStep(s, p, r);
    forall q | q in t.calls && t.calls[q].key.job == job && BeforeJob(t.calls[q].pc)
      ensures !HasJob(t, job)
    {
      if q == p {
        BeforeSelf(s, s.calls[p], r);
      } else if MakesJob(s, s.calls[p], r) && s.calls[p].key.job == job {
        assert Holding(s.calls[q].pc) && Holding(s.calls[p].pc);
      }
      assert !HasJob(s, job);
    }
  }

  lemma NoJobQuiet(s: State, t: State, job: string)
    requires NoJobYet(s, job) && Quiet(s, t)
    ensures NoJobYet(t, job)
  {
    assert HasJob(t, job) ==> HasJob(s, job);
  }

  /** As long as at most one call at a time holds the lease for `job`, a call that is about to mint
      a runner for it, or to create its Secret or Job, does so while no Job for it exists. */
  lemma {:induction false} NoMintWhileJobExists(s: State, es: seq<Event>, job: string)
    requires Init(s) && Valid(s, es) && Always(s, es, t => Alone(t, job))
    ensures NoJobYet(Exec(s, es), job)
  {
    if es != [] {
      NoMintWhileJobExists(s, Front(es), job);
      var t, e := Exec(s, Front(es)), Last(es);
      if e.Act? {
        NoJobActStep(t, e.p, e.reply, job);
      } else {
        NoJobQuiet(t, Next(t, e), job);
      }
    }
  }

  // ----- at most one creator -----

  /** The calls that created a Job for `job`: their Job is there, and there is at most one. */
  ghost predicate OneCreator(s: State, job: string) {
    && (forall p :: p in s.calls && s.calls[p].key.job == job && s.calls[p].uid.Some? ==> HasJob(s, job))
    && (forall p, q ::
          p in s.calls && q in s.calls && s.calls[p].uid.Some? && s.calls[q].uid.Some?
          && s.calls[p].key.job == job && s.calls[q].key.job == job
          ==> p == q)
  }

  lemma UidSelf(s: State, c: Call, r: Reply)
    ensures CallAfter(s, c, r).uid == if MakesJob(s, c, r) then Some(s.nextUid) else c.uid
  {
  }

  lemma OneCreatorActStep(s: State, p: nat, r: Reply, job: string)
    requires OneCreator(s, job) && NoJobYet(s, job) && CanAct(s, p)
    ensures OneCreator(ActStep(s, p, r), job)
  {
    var t := ActStep(s, p, r);
    var c := s.calls[p];
    UidSelf(s, c, r);
    if MakesJob(s, c, r) {
      assert BeforeJob(c.pc);
      assert t.jobs[JobName(c.key)].job == c.key.job;
    }
    forall n | n in s.jobs
      ensures n in t.jobs && t.jobs[n] == s.jobs[n]
    {
    }
    assert HasJob(s, job) ==> HasJob(t, job);
  }

  lemma OneCreatorQuiet(s: State, t: State, job: string)
    requires OneCreator(s, job) && Quiet(s, t) && t.jobs == s.jobs
    ensures OneCreator(t, job)
  {
    assert HasJob(s, job) ==> HasJob(t, job);
    assert forall p :: p in t.calls && t.calls[p].uid.Some? ==>
                         p in s.calls && s.calls[p].uid.Some? && s.calls[p].key == t.calls[p].key;
  }

  ghost predicate KeepsJobs(s: State, e: Event) { !e.DeleteJob? }

  /** With no Job deletions, at most one dispatch over all replicas creates a Job for `job`. */
  lemma {:induction false} AtMostOneCreator(s: State, es: seq<Event>, job: string)
    requires Init(s) && Valid(s, es) && Always(s, es, t => Alone(t, job)) && EachStep(s, es, KeepsJobs)
    ensures OneCreator(Exec(s, es), job)
  {
    if es != [] {
      AtMostOneCreator(s, Front(es), job);
      NoMintWhileJobExists(s, Front(es), job);
      var t, e := Exec(s, Front(es)), Last(es);
      if e.Act? {
        OneCreatorActStep(t, e.p, e.reply, job);
      } else {
        OneCreatorQuiet(t, Next(t, e), job);
      }
    }
  }

  // ----- two ways to have one holder at a time -----

  /** All calls for `job` run in one process. */
  ghost predicate OneProcess(s: State, job: string) {
    forall p, q :: p in s.calls && q in s.calls && s.calls[p].key.job == job && s.calls[q].key.job == job
      ==> s.calls[p].proc == s.calls[q].proc
  }

  lemma {:induction false} LeaseKeepsAlone(s: State, es: seq<Event>, job: string)
    requires Init(s) && Valid(s, es) && Always(s, es, Timely)
    ensures Always(s, es, t => Alone(t, job))
  {
    LeaseExclusion(s, es);
    if es != [] {
      LeaseKeepsAlone(s, Front(es), job);
    }
  }

  lemma {:induction false} MutexKeepsAlone(s: State, es: seq<Event>, job: string)
    requires Init(s) && Valid(s, es) && Always(s, es, t => OneProcess(t, job))
    ensures Always(s, es, t => Alone(t, job))
  {
    MutexExclusion(s, es);
    if es != [] {
      MutexKeepsAlone(s, Front(es), job);
    }
  }

  /** Across replicas: if no tenure outlives its lease, no runner is minted while a Job for its id
      exists, and without deletions at most one dispatch creates one. */
  lemma ReplicasMakeOneJob(s: State, es: seq<Event>, job: string)
    requires Init(s) && Valid(s, es) && Always(s, es, Timely)
    ensures NoJobYet(Exec(s, es), job)
    ensures EachStep(s, es, KeepsJobs) ==> OneCreator(Exec(s, es), job)
  {
    LeaseKeepsAlone(s, es, job);
    NoMintWhileJobExists(s, es, job);
    if EachStep(s, es, KeepsJobs) {
      AtMostOneCreator(s, es, job);
    }
  }

  /** Inside one process the mutexes alone give the same, with no hypothesis on the clock. */
  lemma ProcessMakesOneJob(s: State, es: seq<Event>, job: string)
    requires Init(s) && Valid(s, es) && Always(s, es, t => OneProcess(t, job))
    ensures NoJobYet(Exec(s, es), job)
    ensures EachStep(s, es, KeepsJobs) ==> OneCreator(Exec(s, es), job)
  {
    MutexKeepsAlone(s, es, job);
    NoMintWhileJobExists(s, es, job);
    if EachStep(s, es, KeepsJobs) {
      AtMostOneCreator(s, es, job);
    }
  }
}
