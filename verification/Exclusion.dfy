/** Mutual exclusion of dispatches: by the lease, as long as nobody outlives it, across all
    processes; by the mutex registry, unconditionally, inside one process. */
module Exclusion {
  import opened LeaseLock
  import opened Protocol

  // ----- the in-process mutex -----

  /** A call that looked up its mutex found the registry's entry, and the entry is still there;
      a call past the lock is recorded as its holder. */
  predicate MutexKnown(locks: map<(nat, string), nat>, held: map<nat, nat>, p: nat, c: Call) {
    && (c.pc.AwaitMutex? || InMutex(c.pc) ==>
          (c.proc, c.key.job) in locks && locks[(c.proc, c.key.job)] == c.mutex)
    && (InMutex(c.pc) ==> c.mutex in held && held[c.mutex] == p)
  }

  ghost predicate MutexInv(s: State) {
    forall p :: p in s.calls ==> MutexKnown(s.locks, s.held, p, s.calls[p])
  }

  lemma MutexSelf(s: State, p: nat, c: Call, r: Reply)
    requires MutexKnown(s.locks, s.held, p, c)
    ensures MutexKnown(LocksAfter(s, c), HeldAfter(s, p, c), p, CallAfter(s, c, r))
  {
  }

  lemma MutexActStep(s: State, p: nat, r: Reply)
    requires MutexInv(s) && CanAct(s, p)
    ensures MutexInv(ActStep(s, p, r))
  {
    MutexSelf(s, p, s.calls[p], r);
    forall q | q in s.calls && q != p
      ensures MutexKnown(LocksAfter(s, s.calls[p]), HeldAfter(s, p, s.calls[p]), q, s.calls[q])
    {
    }
  }

  lemma MutexQuiet(s: State, t: State)
    requires MutexInv(s) && Quiet(s, t)
    ensures MutexInv(t)
  {
  }

  lemma MutexStep(s: State, e: Event)
    requires MutexInv(s) && Enabled(s, e)
    ensures MutexInv(Next(s, e))
  {
    if e.Act? {
      MutexActStep(s, e.p, e.reply);
    } else {
      MutexQuiet(s, Next(s, e));
    }
  }

  /** Two calls of one process for one job are not both past the mutex. */
  ghost predicate OnePastMutex(s: State) {
    forall p, q ::
      p in s.calls && q in s.calls && InMutex(s.calls[p].pc) && InMutex(s.calls[q].pc)
      && s.calls[p].proc == s.calls[q].proc && s.calls[p].key.job == s.calls[q].key.job
      ==> p == q
  }

  /** Inside one process, whatever the clock does, at most one call per job is past the mutex:
      registry entries are never replaced, so all the calls wait for the same mutex. */
  lemma {:induction false} MutexExclusion(s: State, es: seq<Event>)
    requires Init(s) && Valid(s, es)
    ensures MutexInv(Exec(s, es)) && OnePastMutex(Exec(s, es))
  {
    if es != [] {
      MutexExclusion(s, Front(es));
      MutexStep(Exec(s, Front(es)), Last(es));
    }
  }

  // ----- the lease -----

  /** Two calls for one job never hold its lease together. */
  ghost predicate OneHolder(s: State) {
    forall p, q ::
      p in s.calls && q in s.calls && Holding(s.calls[p].pc) && Holding(s.calls[q].pc)
      && s.calls[p].key.job == s.calls[q].key.job
      ==> p == q
  }

  /** Nobody holds a lease past RenewTime plus its duration. */
  ghost predicate Timely(s: State) {
    forall p :: p in s.calls && Holding(s.calls[p].pc) ==> s.now < s.calls[p].readAt + Tenure(s.ttl)
  }

  /** The stored lease of a holder's job is the one that holder wrote. */
  predicate HoldsOwnLease(leases: map<string, Lease>, ttl: Ttl, c: Call) {
    Holding(c.pc) ==> c.key.job in leases && leases[c.key.job] == Claim(c.identity, ttl, c.readAt, c.rv)
  }

  ghost predicate OwnLease(s: State) {
    forall p :: p in s.calls ==> HoldsOwnLease(s.leases, s.ttl, s.calls[p])
  }

  /** What a call knows about the lease it read: as long as the version is the same, it is the
      same lease, and one to be replaced had run out when it was judged. */
  predicate KnowsLease(leases: map<string, Lease>, nextRv: nat, ttl: Ttl, now: nat, c: Call) {
    && c.identity != ""
    && ((c.pc.JudgeLease? || c.pc.UpdateLease?) && c.seen.Some? ==>
          && c.seen.value.rv < nextRv
          && (c.key.job in leases && leases[c.key.job].rv == c.seen.value.rv ==> leases[c.key.job] == c.seen.value))
    && (c.pc.UpdateLease? ==> c.seen.Some? && c.readAt <= now && !HolderActive(c.seen.value, ttl, c.readAt))
  }

  ghost predicate VersionsUsed(leases: map<string, Lease>, nextRv: nat) {
    forall j :: j in leases ==> leases[j].rv < nextRv
  }

  ghost predicate ReadLeases(s: State) {
    && VersionsUsed(s.leases, s.nextRv)
    && (forall p :: p in s.calls ==> KnowsLease(s.leases, s.nextRv, s.ttl, s.now, s.calls[p]))
  }

  lemma KnowsSelf(s: State, c: Call, r: Reply)
    requires VersionsUsed(s.leases, s.nextRv) && KnowsLease(s.leases, s.nextRv, s.ttl, s.now, c)
    ensures KnowsLease(LeasesAfter(s, c, r), if WinsLease(s, c, r) then s.nextRv + 1 else s.nextRv, s.ttl, s.now, CallAfter(s, c, r))
  {
    if Leasing(c.pc) {
      KnowsLeasing(s, c, r);
    } else {
      assert !CallAfter(s, c, r).pc.JudgeLease? && !CallAfter(s, c, r).pc.UpdateLease?;
    }
  }

  /** What TryAcquire learns: a lease read is the stored one, and keeps what was known of it. */
  lemma KnowsLeasing(s: State, c: Call, r: Reply)
    requires Leasing(c.pc) && VersionsUsed(s.leases, s.nextRv) && KnowsLease(s.leases, s.nextRv, s.ttl, s.now, c)
    ensures KnowsLease(LeasesAfter(s, c, r), if WinsLease(s, c, r) then s.nextRv + 1 else s.nextRv, s.ttl, s.now, LeaseAfter(s, c, r))
  {
    if c.pc.ReadLease? || c.pc.JudgeLease? {
      assert !WinsLease(s, c, r) && LeasesAfter(s, c, r) == s.leases;
    }
  }

  lemma ReadLeasesActStep(s: State, p: nat, r: Reply)
    requires ReadLeases(s) && CanAct(s, p)
    ensures ReadLeases(ActStep(s, p, r))
  {
    var t := ActStep(s, p, r);
    KnowsSelf(s, s.calls[p], r);
    forall q | q in s.calls && q != p
      ensures KnowsLease(t.leases, t.nextRv, t.ttl, t.now, s.calls[q])
    {
    }
  }

  lemma ReadLeasesQuiet(s: State, t: State)
    requires ReadLeases(s) && Quiet(s, t)
    ensures ReadLeases(t)
  {
  }

  lemma ReadLeasesStep(s: State, e: Event)
    requires ReadLeases(s) && Enabled(s, e)
    ensures ReadLeases(Next(s, e))
  {
    if e.Act? {
      ReadLeasesActStep(s, e.p, e.reply);
    } else {
      ReadLeasesQuiet(s, Next(s, e));
    }
  }

  lemma {:induction false} ReadLeasesHold(s: State, es: seq<Event>)
    requires Init(s) && Valid(s, es)
    ensures ReadLeases(Exec(s, es))
  {
    if es != [] {
      ReadLeasesHold(s, Front(es));
      ReadLeasesStep(Exec(s, Front(es)), Last(es));
    }
  }

  /** A lease that a call managed to win was not held by anyone. */
  lemma WonLeaseWasFree(s: State, p: nat, r: Reply, q: nat)
    requires ReadLeases(s) && OwnLease(s) && Timely(s) && p in s.calls && q in s.calls
    requires WinsLease(s, s.calls[p], r) && Holding(s.calls[q].pc)
    ensures s.calls[q].key.job != s.calls[p].key.job
  {
    var c, d := s.calls[p], s.calls[q];
    assert HoldsOwnLease(s.leases, s.ttl, d);
    if d.key.job == c.key.job && c.pc == UpdateLease {
      ClaimActive(d.identity, s.ttl, d.readAt, d.rv, c.readAt);
    }
  }

  lemma HoldsSelf(s: State, c: Call, r: Reply)
    requires HoldsOwnLease(s.leases, s.ttl, c)
    ensures HoldsOwnLease(LeasesAfter(s, c, r), s.ttl, CallAfter(s, c, r))
    ensures Holding(CallAfter(s, c, r).pc) ==> Holding(c.pc) || WinsLease(s, c, r)
  {
  }

  lemma LeaseActStep(s: State, p: nat, r: Reply)
    requires ReadLeases(s) && OwnLease(s) && OneHolder(s) && Timely(s) && CanAct(s, p)
    ensures OwnLease(ActStep(s, p, r)) && OneHolder(ActStep(s, p, r))
  {
    var t := ActStep(s, p, r);
    HoldsSelf(s, s.calls[p], r);
    forall q | q in s.calls && q != p && Holding(s.calls[q].pc)
      ensures HoldsOwnLease(t.leases, t.ttl, s.calls[q])
      ensures Holding(t.calls[p].pc) ==> s.calls[q].key.job != s.calls[p].key.job
    {
      if WinsLease(s, s.calls[p], r) {
        WonLeaseWasFree(s, p, r, q);
      }
    }
  }

  lemma LeaseQuiet(s: State, t: State)
    requires OwnLease(s) && OneHolder(s) && Quiet(s, t)
    ensures OwnLease(t) && OneHolder(t)
  {
    assert forall p :: p in t.calls && Holding(t.calls[p].pc) ==> p in s.calls && t.calls[p] == s.calls[p];
  }

  lemma LeaseStep(s: State, e: Event)
    requires ReadLeases(s) && OwnLease(s) && OneHolder(s) && Timely(s) && Enabled(s, e)
    ensures OwnLease(Next(s, e)) && OneHolder(Next(s, e))
  {
    if e.Act? {
      LeaseActStep(s, e.p, e.reply);
    } else {
      LeaseQuiet(s, Next(s, e));
    }
  }

  /** Over any interleaving of any number of replicas, crashes and failed releases included: if no
      tenure outlives the lease, a job's lease has at most one holder and the stored lease is that
      holder's own, so a release never deletes another dispatch's lease. */
  lemma {:induction false} LeaseExclusion(s: State, es: seq<Event>)
    requires Init(s) && Valid(s, es) && Always(s, es, Timely)
    ensures OneHolder(Exec(s, es)) && OwnLease(Exec(s, es))
  {
    if es != [] {
      LeaseExclusion(s, Front(es));
      ReadLeasesHold(s, Front(es));
      LeaseStep(Exec(s, Front(es)), Last(es));
    }
  }
}
