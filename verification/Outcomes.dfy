/** What a dispatch leaves on the lease and the mutexes, and what its result says about the run. */
module Outcomes {
  import opened Names
  import opened LeaseLock
  import opened Protocol
  import opened Exclusion
  import opened Bookkeeping

  // ----- the release of the lease -----

  /** A release that works takes away the lease of the call's job, whoever's it is, and no other. */
  lemma ReleaseFrees(s: State, p: nat, r: Reply)
    requires CanAct(s, p) && s.calls[p].pc.ReleaseLease? && r.good
    ensures var t := Next(s, Act(p, r));
            && s.calls[p].key.job !in t.leases && t.calls[p].pc.ReleaseMutex?
            && forall j :: j != s.calls[p].key.job ==> (j in t.leases <==> j in s.leases) && (j in s.leases ==> t.leases[j] == s.leases[j])
  {
  }

  /** No crash, and no release of a lease fails. */
  predicate Releases(s: State, e: Event) {
    !e.Crash? && (e.Act? && e.p in s.calls && s.calls[e.p].pc.ReleaseLease? ==> e.reply.good)
  }

  /** The call holds this lease. */
  predicate IsClaimOf(ttl: Ttl, c: Call, job: string, l: Lease) {
    Holding(c.pc) && c.key.job == job && l == Claim(c.identity, ttl, c.readAt, c.rv)
  }

  /** A stored lease was there from the start or is the claim of a call that still holds it. */
  ghost predicate Accounted(before: map<string, Lease>, s: State) {
    forall j :: j in s.leases ==>
      || (j in before && before[j] == s.leases[j])
      || exists p :: p in s.calls && IsClaimOf(s.ttl, s.calls[p], j, s.leases[j])
  }

  lemma AccountedAct(before: map<string, Lease>, s: State, p: nat, r: Reply)
    requires Accounted(before, s) && CanAct(s, p) && (s.calls[p].pc.ReleaseLease? ==> r.good)
    ensures Accounted(before, Next(s, Act(p, r)))
  {
    var c, t := s.calls[p], Next(s, Act(p, r));
    forall j | j in t.leases && !(j in before && before[j] == t.leases[j])
      ensures exists q :: q in t.calls && IsClaimOf(t.ttl, t.calls[q], j, t.leases[j])
    {
      if WinsLease(s, c, r) && j == c.key.job {
        assert IsClaimOf(t.ttl, t.calls[p], j, t.leases[j]);
      } else {
        assert j in s.leases && s.leases[j] == t.leases[j];
        var q :| q in s.calls && IsClaimOf(s.ttl, s.calls[q], j, s.leases[j]);
        assert IsClaimOf(t.ttl, t.calls[q], j, t.leases[j]);
      }
    }
  }

  /** Over every run without crashes and failed releases: each stored lease was there from the start
      or is the claim of a call that still holds it. */
  lemma {:induction false} LeasesAccounted(s: State, es: seq<Event>)
    requires Init(s) && Valid(s, es) && EachStep(s, es, Releases)
    ensures Accounted(s.leases, Exec(s, es))
  {
    if es != [] {
      LeasesAccounted(s, Front(es));
      var t, e := Exec(s, Front(es)), Last(es);
      if e.Act? {
        AccountedAct(s.leases, t, e.p, e.reply);
      } else {
        forall j, p | j in t.leases && p in t.calls && IsClaimOf(t.ttl, t.calls[p], j, t.leases[j])
          ensures IsClaimOf(t.ttl, Next(t, e).calls[p], j, t.leases[j])
        {
        }
      }
    }
  }

  // ----- the release of the mutex -----

  /** A locked mutex is held by a call that is past it, or crashed there. */
  ghost predicate HeldByUser(s: State) {
    forall m :: m in s.held ==>
      && s.held[m] in s.calls && s.calls[s.held[m]].mutex == m
      && (InMutex(s.calls[s.held[m]].pc) || s.calls[s.held[m]].pc.Crashed?)
  }

  lemma {:induction false} MutexesHeldByUsers(s: State, es: seq<Event>)
    requires Init(s) && Valid(s, es)
    ensures HeldByUser(Exec(s, es))
  {
    if es != [] {
      MutexesHeldByUsers(s, Front(es));
      MutexExclusion(s, Front(es));
      var t, e := Exec(s, Front(es)), Last(es);
      if e.Act? {
        HeldAct(t, e.p, e.reply);
      } else {
        HeldQuiet(t, Next(t, e));
      }
    }
  }

  lemma HeldAct(s: State, p: nat, r: Reply)
    requires HeldByUser(s) && MutexInv(s) && CanAct(s, p)
    ensures HeldByUser(Next(s, Act(p, r)))
  {
    var c, k := s.calls[p], CallAfter(s, s.calls[p], r);
    assert MutexKnown(s.locks, s.held, p, c);
    assert InMutex(c.pc) && !c.pc.ReleaseMutex? ==> InMutex(k.pc) && k.mutex == c.mutex;
    assert c.pc.AwaitMutex? ==> InMutex(k.pc) && k.mutex == c.mutex;
  }

  lemma HeldQuiet(s: State, t: State)
    requires HeldByUser(s) && Quiet(s, t)
    ensures HeldByUser(t)
  {
    forall m | m in t.held
      ensures t.held[m] in t.calls && t.calls[t.held[m]].mutex == m
      ensures InMutex(t.calls[t.held[m]].pc) || t.calls[t.held[m]].pc.Crashed?
    {
      assert s.held[m] in s.calls && s.calls[s.held[m]].mutex == m;
    }
  }

  ghost predicate AllReturned(s: State) { forall p :: p in s.calls ==> s.calls[p].pc.Returned? }

  lemma NoLeaseLeft(before: map<string, Lease>, s: State)
    requires Accounted(before, s) && AllReturned(s)
    ensures forall j :: j in s.leases ==> j in before && s.leases[j] == before[j]
  {
  }

  lemma NoMutexLeft(s: State)
    requires HeldByUser(s) && AllReturned(s)
    ensures s.held == map[]
  {
    assert forall m :: m !in s.held;
  }

  /** When all dispatches have returned, none of them has left a lease or a locked mutex behind. */
  lemma NothingLeftLocked(s: State, es: seq<Event>)
    requires Init(s) && Valid(s, es) && EachStep(s, es, Releases) && AllReturned(Exec(s, es))
    ensures var t := Exec(s, es);
            && (forall j :: j in t.leases ==> j in s.leases && t.leases[j] == s.leases[j])
            && t.held == map[]
  {
    LeasesAccounted(s, es);
    MutexesHeldByUsers(s, es);
    NoLeaseLeft(s.leases, Exec(s, es));
    NoMutexLeft(Exec(s, es));
  }

  // ----- what the result says -----

  /** Some step of the run satisfies `f`. */
  ghost predicate SomeStep(s: State, es: seq<Event>, f: (State, Event) -> bool) {
    es != [] && (SomeStep(s, Front(es), f) || f(Exec(s, Front(es)), Last(es)))
  }

  /** A step of call p that shows that the job has a Job, or is being dispatched: a Job listed, a lease
      judged active, or a lease in the way. */
  predicate FindsTaken(s: State, e: Event, p: nat) {
    && e.Act? && e.p == p && p in s.calls
    && var c := s.calls[p];
      || ((c.pc.FirstCheck? || c.pc.SecondCheck? || c.pc.ThirdCheck?) && exists n :: n in s.jobs && s.jobs[n].job == c.key.job)
      || (c.pc.JudgeLease? && c.seen.Some? && HolderActive(c.seen.value, s.ttl, s.now))
      || (c.pc.CreateLease? && c.key.job in s.leases)
  }

  /** A step of call p that links its Secret to its Job. */
  predicate Links(s: State, e: Event, p: nat) {
    e.Act? && e.p == p && p in s.calls && s.calls[p].pc.SetOwner? && s.calls[p].uid.Some?
    && e.reply.good && SecretName(s.calls[p].key) in s.secrets
  }

  /** A step of call p that fails: an API call does, or finds a newer lease, its Secret's or its Job's
      name taken, or its Secret gone. */
  predicate Fails(s: State, e: Event, p: nat) {
    && e.Act? && e.p == p && p in s.calls
    && var c := s.calls[p];
      || !e.reply.good
      || (c.pc.UpdateLease? && !(c.key.job in s.leases && c.seen.Some? && s.leases[c.key.job].rv == c.seen.value.rv))
      || (c.pc.CreateSecret? && SecretName(c.key) in s.secrets)
      || (c.pc.CreateJob? && JobName(c.key) in s.jobs)
      || (c.pc.SetOwner? && SecretName(c.key) !in s.secrets)
  }

  /** The result of the call is settled. */
  predicate Settled(pc: Pc) {
    Finished(pc) || pc.DropSecretNoJob? || pc.DeregisterRunner? || pc.DropSecretNoOwner?
  }

  /** A settled result has its reason in the run. */
  ghost predicate Reasoned(s: State, es: seq<Event>, p: nat, c: Call) {
    Settled(c.pc) ==>
      if c.ok then SomeStep(s, es, (t, e) => FindsTaken(t, e, p)) || SomeStep(s, es, (t, e) => Links(t, e, p))
      else SomeStep(s, es, (t, e) => Fails(t, e, p))
  }

  /** One step either keeps a settled result or gives a reason for it. */
  lemma Settles(t: State, p: nat, r: Reply)
    requires CanAct(t, p) && StageOk(t.nextRunner, t.now, t.calls[p])
    ensures var c, k, e := t.calls[p], CallAfter(t, t.calls[p], r), Act(p, r);
            Settled(k.pc) ==>
              || (Settled(c.pc) && k.ok == c.ok)
              || (if k.ok then FindsTaken(t, e, p) || Links(t, e, p) else Fails(t, e, p))
  {
  }

  lemma SomeStepGrows(s: State, es: seq<Event>, f: (State, Event) -> bool)
    requires es != []
    ensures SomeStep(s, Front(es), f) ==> SomeStep(s, es, f)
    ensures f(Exec(s, Front(es)), Last(es)) ==> SomeStep(s, es, f)
  {
  }

  lemma ReasonedGrows(s: State, es: seq<Event>, p: nat, c: Call)
    requires es != [] && Settled(c.pc) && Reasoned(s, Front(es), p, c)
    ensures Reasoned(s, es, p, c)
  {
    SomeStepGrows(s, es, (t, e) => FindsTaken(t, e, p));
    SomeStepGrows(s, es, (t, e) => Links(t, e, p));
    SomeStepGrows(s, es, (t, e) => Fails(t, e, p));
  }

  lemma ReasonedAct(s: State, es: seq<Event>, p: nat)
    requires Init(s) && Valid(s, es) && es != [] && Last(es).Act? && Last(es).p == p
    requires Reasoned(s, Front(es), p, Exec(s, Front(es)).calls[p])
    ensures Reasoned(s, es, p, Exec(s, es).calls[p])
  {
    var t, e := Exec(s, Front(es)), Last(es);
    var c, k := t.calls[p], CallAfter(t, t.calls[p], e.reply);
    BooksHold(s, Front(es));
    Settles(t, p, e.reply);
    if Settled(k.pc) {
      if Settled(c.pc) && k.ok == c.ok {
        ReasonedGrows(s, es, p, c);
      } else {
        SomeStepGrows(s, es, (t, e) => FindsTaken(t, e, p));
        SomeStepGrows(s, es, (t, e) => Links(t, e, p));
        SomeStepGrows(s, es, (t, e) => Fails(t, e, p));
      }
    }
  }

  /** In every run: a dispatch that returned nil has linked its Secret to its Job, or has found a Job,
      an active lease or a lease in its way; one that returned an error had a step that failed. */
  lemma {:induction false} ResultsHaveReasons(s: State, es: seq<Event>, p: nat)
    requires Init(s) && Valid(s, es) && p in Exec(s, es).calls
    ensures Reasoned(s, es, p, Exec(s, es).calls[p])
  {
    if es != [] {
      var t, e := Exec(s, Front(es)), Last(es);
      if p in t.calls {
        ResultsHaveReasons(s, Front(es), p);
        if e.Act? && e.p == p {
          ReasonedAct(s, es, p);
        } else if Settled(Exec(s, es).calls[p].pc) {
          ReasonedGrows(s, es, p, t.calls[p]);
        }
      }
    }
  }
}
