/** Why lease exclusion needs its hypothesis on time. */
module LeaseLimits {
  import opened Options
  import opened Names
  import opened LeaseLock
  import opened Protocol
  import opened Exclusion

  const WELL := Reply(true, false, false, false)

  /** Reading, judging and replacing a lease that has run out. */
  lemma Takeover(s: State, c: Call)
    requires c.pc.ReadLease? && c.key.job in s.leases && !HolderActive(s.leases[c.key.job], s.ttl, s.now)
    ensures var seen := LeaseAfter(s, c, WELL);
            && seen == c.(pc := JudgeLease, seen := Some(s.leases[c.key.job]))
            && LeaseAfter(s, seen, WELL) == seen.(pc := UpdateLease, readAt := s.now)
            && LeaseAfter(s, LeaseAfter(s, seen, WELL), WELL).pc == ThirdCheck
  {
  }

  /** Reading and judging a lease moves nothing but the call itself. */
  lemma OnlyMoves(s: State, q: nat)
    requires q in s.calls && (s.calls[q].pc.ReadLease? || s.calls[q].pc.JudgeLease?)
    ensures CanAct(s, q)
    ensures var t := ActStep(s, q, WELL);
            && t.leases == s.leases && t.ttl == s.ttl && t.now == s.now
            && t.calls == s.calls[q := LeaseAfter(s, s.calls[q], WELL)]
  {
  }

  /** Replacing the version read gives the lease to the call, whoever else holds it. */
  lemma Replaces(s: State, p: nat, q: nat)
    requires p in s.calls && q in s.calls && p != q && s.calls[p].key.job == s.calls[q].key.job
    requires Holding(s.calls[p].pc) && s.calls[q].pc.UpdateLease? && LeaseAfter(s, s.calls[q], WELL).pc.ThirdCheck?
    ensures CanAct(s, q) && !OneHolder(ActStep(s, q, WELL))
  {
    var t := ActStep(s, q, WELL);
    assert t.calls[p] == s.calls[p] && t.calls[q] == LeaseAfter(s, s.calls[q], WELL);
  }

  /** As soon as a tenure outlives its lease, a call of another replica that is about to read the
      lease needs three API calls, all of them successful, to hold it too. */
  lemma LateHolderIsOvertaken(s: State, p: nat, q: nat)
    requires OwnLease(s) && p in s.calls && q in s.calls && p != q
    requires Holding(s.calls[p].pc) && s.calls[q].pc.ReadLease? && s.calls[p].key.job == s.calls[q].key.job
    requires s.now >= s.calls[p].readAt + Tenure(s.ttl)
    ensures CanAct(s, q)
    ensures var t := ActStep(s, q, WELL);
            && CanAct(t, q) && CanAct(ActStep(t, q, WELL), q)
            && !OneHolder(ActStep(ActStep(t, q, WELL), q, WELL))
  {
    var c, d := s.calls[p], s.calls[q];
    assert HoldsOwnLease(s.leases, s.ttl, c);
    ClaimActive(c.identity, s.ttl, c.readAt, c.rv, s.now);
    Takeover(s, d);
    OnlyMoves(s, q);
    var t := ActStep(s, q, WELL);
    OnlyMoves(t, q);
    Replaces(ActStep(t, q, WELL), p, q);
  }

  // ----- a whole run -----

  /** A valid run leads from s to t. */
  ghost predicate Reached(s: State, t: State) {
    forall k :: Unfold(k) ==> exists es :: Valid(s, es) && Exec(s, es) == t
  }

  lemma Stay(s: State)
    ensures Reached(s, s)
  {
    assert Valid(s, []) && Exec(s, []) == s;
  }

  lemma Go(s: State, t: State, e: Event)
    requires Reached(s, t) && Enabled(t, e)
    ensures Reached(s, Next(t, e))
  {
    assert Unfold(0);
    var es :| Valid(s, es) && Exec(s, es) == t;
    var more := es + [e];
    assert Front(more) == es && Last(more) == e;
    assert Valid(s, more) && Exec(s, more) == Next(t, e);
  }

  /** A run has come to a state from which calls of process `proc` for `job` can get on, and whose time
      to live is `ttl`. */
  ghost predicate Open(s: State, t: State, job: string, ttl: Ttl) {
    && Reached(s, t) && t.ttl == ttl && !HasJob(t, job) && t.dead == {}
    && forall m :: m in t.held ==> m < t.nextMutex
  }

  predicate AtGate(pc: Pc) { pc.FirstCheck? || pc.FindMutex? || pc.AwaitMutex? || pc.SecondCheck? }

  /** What a call waiting for its mutex waits for is free. */
  predicate MutexFree(t: State, c: Call) { c.pc.AwaitMutex? ==> c.mutex !in t.held }

  lemma Begin(s: State, t: State, ttl: Ttl, p: nat, proc: nat, identity: string, key: Key) returns (u: State)
    requires Open(s, t, key.job, ttl) && p !in t.calls && identity != ""
    ensures Open(s, u, key.job, ttl) && u.leases == t.leases && u.now == t.now && u.locks == t.locks && u.held == t.held
    ensures u.calls == t.calls[p := NewCall(proc, identity, key)]
  {
    u := Next(t, Start(p, proc, identity, key));
    Go(s, t, Start(p, proc, identity, key));
    assert HasJob(u, key.job) ==> HasJob(t, key.job);
  }

  /** A step at the gate: no Job is found; the mutex is looked up or taken. */
  lemma GateAct(s: State, t: State, ttl: Ttl, p: nat) returns (u: State)
    requires p in t.calls && AtGate(t.calls[p].pc) && Open(s, t, t.calls[p].key.job, ttl) && MutexFree(t, t.calls[p])
    requires t.calls[p].pc.FindMutex? ==> (t.calls[p].proc, t.calls[p].key.job) !in t.locks
    requires t.calls[p].pc.AwaitMutex? ==> t.calls[p].mutex < t.nextMutex
    ensures Open(s, u, t.calls[p].key.job, ttl) && u.leases == t.leases && u.now == t.now
    ensures u.calls == t.calls[p := GateAfter(t, t.calls[p], WELL)]
    ensures t.calls[p].pc.FindMutex? ==> u.calls[p].mutex !in u.held && u.calls[p].mutex < u.nextMutex
    ensures t.calls[p].pc.FindMutex? ==> u.locks.Keys == t.locks.Keys + {(t.calls[p].proc, t.calls[p].key.job)}
    ensures !t.calls[p].pc.FindMutex? ==> u.locks == t.locks
  {
    u := ActStep(t, p, WELL);
    Go(s, t, Act(p, WELL));
    assert HasJob(u, t.calls[p].key.job) ==> HasJob(t, t.calls[p].key.job);
  }

  /** A new call of a process that has none for the job gets as far as waiting for its mutex. */
  lemma ToMutex(s: State, t: State, ttl: Ttl, p: nat, proc: nat, identity: string, key: Key) returns (u: State)
    requires Open(s, t, key.job, ttl) && p !in t.calls && identity != "" && (proc, key.job) !in t.locks
    ensures Open(s, u, key.job, ttl) && u.leases == t.leases && u.now == t.now
    ensures p in u.calls && u.calls == t.calls[p := u.calls[p]] && SameCall(NewCall(proc, identity, key), u.calls[p])
    ensures u.calls[p].pc.AwaitMutex? && u.calls[p].mutex !in u.held && u.calls[p].mutex < u.nextMutex
    ensures u.locks.Keys == t.locks.Keys + {(proc, key.job)}
  {
    var a := Begin(s, t, ttl, p, proc, identity, key);
    var b := GateAct(s, a, ttl, p);
    u := GateAct(s, b, ttl, p);
  }

  /** And on to reading the lease. */
  lemma ToLease(s: State, t: State, ttl: Ttl, p: nat, proc: nat, identity: string, key: Key) returns (u: State)
    requires Open(s, t, key.job, ttl) && p !in t.calls && identity != "" && (proc, key.job) !in t.locks
    ensures Open(s, u, key.job, ttl) && u.leases == t.leases && u.now == t.now
    ensures p in u.calls && u.calls == t.calls[p := u.calls[p]]
    ensures u.calls[p].pc.ReadLease? && SameCall(NewCall(proc, identity, key), u.calls[p])
    ensures u.locks.Keys == t.locks.Keys + {(proc, key.job)}
  {
    var c := ToMutex(s, t, ttl, p, proc, identity, key);
    var d := GateAct(s, c, ttl, p);
    u := GateAct(s, d, ttl, p);
  }

  lemma LeaseAct(s: State, t: State, ttl: Ttl, job: string, p: nat) returns (u: State)
    requires Open(s, t, job, ttl) && p in t.calls && (t.calls[p].pc.ReadLease? || t.calls[p].pc.JudgeLease?)
    ensures Open(s, u, job, ttl) && u.leases == t.leases && u.now == t.now && u.locks == t.locks
    ensures u.calls == t.calls[p := LeaseAfter(t, t.calls[p], WELL)]
  {
    OnlyMoves(t, p);
    u := ActStep(t, p, WELL);
    Go(s, t, Act(p, WELL));
    assert HasJob(u, job) ==> HasJob(t, job);
  }

  lemma CreateAct(s: State, t: State, ttl: Ttl, p: nat) returns (u: State)
    requires p in t.calls && t.calls[p].pc.CreateLease? && t.calls[p].key.job !in t.leases && Open(s, t, t.calls[p].key.job, ttl)
    ensures Open(s, u, t.calls[p].key.job, ttl) && u.locks == t.locks
    ensures p in u.calls && u.calls == t.calls[p := u.calls[p]]
    ensures u.calls[p].pc.ThirdCheck? && SameCall(t.calls[p], u.calls[p]) && HoldsOwnLease(u.leases, u.ttl, u.calls[p])
  {
    u := ActStep(t, p, WELL);
    Go(s, t, Act(p, WELL));
    assert HasJob(u, t.calls[p].key.job) ==> HasJob(t, t.calls[p].key.job);
  }

  /** There being no lease, the call creates it. */
  lemma CreatesLease(s: State, t: State, ttl: Ttl, p: nat) returns (u: State)
    requires p in t.calls && t.calls[p].pc.ReadLease? && t.calls[p].key.job !in t.leases && Open(s, t, t.calls[p].key.job, ttl)
    ensures Open(s, u, t.calls[p].key.job, ttl) && u.locks == t.locks
    ensures p in u.calls && u.calls == t.calls[p := u.calls[p]]
    ensures u.calls[p].pc.ThirdCheck? && SameCall(t.calls[p], u.calls[p]) && HoldsOwnLease(u.leases, u.ttl, u.calls[p])
  {
    var a := LeaseAct(s, t, ttl, t.calls[p].key.job, p);
    var b := LeaseAct(s, a, ttl, t.calls[p].key.job, p);
    u := CreateAct(s, b, ttl, p);
  }

  /** Time passes until the lease of call p has run out. */
  lemma Wait(s: State, t: State, ttl: Ttl, job: string, p: nat) returns (u: State)
    requires Open(s, t, job, ttl) && p in t.calls
    ensures Reached(s, u) && u.calls == t.calls && u.leases == t.leases && u.ttl == t.ttl
    ensures u.now >= u.calls[p].readAt + Tenure(u.ttl)
  {
    var tick := Tick(t.calls[p].readAt + Tenure(ttl));
    u := Next(t, tick);
    Go(s, t, tick);
  }

  lemma Overtakes(s: State, t: State, p: nat, q: nat) returns (u: State)
    requires Reached(s, t) && OwnLease(t) && p in t.calls && q in t.calls && p != q
    requires Holding(t.calls[p].pc) && t.calls[q].pc.ReadLease? && t.calls[p].key.job == t.calls[q].key.job
    requires t.now >= t.calls[p].readAt + Tenure(t.ttl)
    ensures Reached(s, u) && !OneHolder(u)
  {
    LateHolderIsOvertaken(t, p, q);
    Go(s, t, Act(q, WELL));
    Go(s, ActStep(t, q, WELL), Act(q, WELL));
    Go(s, ActStep(ActStep(t, q, WELL), q, WELL), Act(q, WELL));
    u := ActStep(ActStep(ActStep(t, q, WELL), q, WELL), q, WELL);
  }

  /** From any initial state in which a job has neither Job nor lease there is a run, without a crash
      or a failed call, in which two replicas come to hold its lease together. */
  lemma ExclusionCanBreak(s: State, key: Key) returns (t: State)
    requires Init(s) && !HasJob(s, key.job) && key.job !in s.leases
    ensures Reached(s, t) && !OneHolder(t)
  {
    Stay(s);
    var a := ToLease(s, s, s.ttl, 0, 0, "a", key);
    var b := CreatesLease(s, a, s.ttl, 0);
    var c := ToLease(s, b, s.ttl, 1, 1, "b", key);
    var d := Wait(s, c, s.ttl, key.job, 0);
    assert d.calls.Keys == {0, 1} && d.calls[0] == b.calls[0];
    assert OwnLease(d);
    t := Overtakes(s, d, 0, 1);
  }

  lemma ReachedMeans(s: State, t: State) returns (es: seq<Event>)
    requires Reached(s, t)
    ensures Valid(s, es) && Exec(s, es) == t
  {
    assert Unfold(0);
    es :| Valid(s, es) && Exec(s, es) == t;
  }

  /** So, from any such state, exclusion over all runs fails without the hypothesis on time. */
  lemma ExclusionNeedsTime(s: State, key: Key)
    requires Init(s) && !HasJob(s, key.job) && key.job !in s.leases
    ensures exists es :: Valid(s, es) && !OneHolder(Exec(s, es))
  {
    var t := ExclusionCanBreak(s, key);
    var es := ReachedMeans(s, t);
  }
}
