/** The in-process registry of job mutexes (internal/dispatch/jobmutex.go): each of its operations is
    the protocol's step on the maps that stand for it, so what Exclusion proves of those holds of it. */
module JobMutex {
  import opened Protocol
  import opened Exclusion

  class Mutex {
    ghost const id: nat      // the protocol's name for it
    var locked: bool

    constructor (ghost id: nat)
      ensures !locked && this.id == id
    {
      locked := false;
      this.id := id;
    }
  }

  /** Mutexes have been numbered from 0 up, each once. */
  ghost predicate Numbered(locks: map<(nat, string), nat>, held: map<nat, nat>, next: nat) {
    && (forall k :: k in locks ==> locks[k] < next)
    && (forall m :: m in held ==> m < next)
    && (forall k, l :: k in locks && l in locks && locks[k] == locks[l] ==> k == l)
  }

  lemma NumberedActStep(s: State, p: nat, r: Reply)
    requires Numbered(s.locks, s.held, s.nextMutex) && MutexInv(s) && CanAct(s, p)
    ensures Numbered(LocksAfter(s, s.calls[p]), HeldAfter(s, p, s.calls[p]), ActStep(s, p, r).nextMutex)
  {
    assert MutexKnown(s.locks, s.held, p, s.calls[p]);
  }

  lemma NumberedStep(s: State, e: Event)
    requires Numbered(s.locks, s.held, s.nextMutex) && MutexInv(s) && Enabled(s, e)
    ensures var t := Next(s, e); Numbered(t.locks, t.held, t.nextMutex)
  {
    if e.Act? {
      NumberedActStep(s, e.p, e.reply);
    }
  }

  /** So in every run. */
  lemma {:induction false} AlwaysNumbered(s: State, es: seq<Event>)
    requires Init(s) && Valid(s, es)
    ensures var t := Exec(s, es); Numbered(t.locks, t.held, t.nextMutex)
  {
    if es != [] {
      AlwaysNumbered(s, Front(es));
      MutexExclusion(s, Front(es));
      NumberedStep(Exec(s, Front(es)), Last(es));
    }
  }

  class JobMutexRegistry {
    ghost const proc: nat
    var locks: map<string, Mutex>

    /** The registry is what the protocol's maps say of the process. */
    ghost predicate Represents(ls: map<(nat, string), nat>, held: map<nat, nat>)
      reads this, locks.Values
    {
      && (forall j :: j in locks <==> (proc, j) in ls)
      && (forall j :: j in locks ==> locks[j].id == ls[(proc, j)] && (locks[j].locked <==> locks[j].id in held))
    }

    constructor (ghost proc: nat)
      ensures this.proc == proc && locks == map[]
      ensures forall ls, held :: (forall j :: (proc, j) !in ls) ==> Represents(ls, held)
    {
      this.proc := proc;
      locks := map[];
    }

    /** The part under the registry's own mutex, which is the protocol's lookup: an entry, once there,
        is never replaced; a new one is a fresh, free mutex. */
    method Find(jobID: string, ghost s: State, ghost p: nat) returns (m: Mutex)
      requires Represents(s.locks, s.held) && Numbered(s.locks, s.held, s.nextMutex)
      requires p in s.calls && s.calls[p].pc.FindMutex? && s.calls[p].proc == proc && s.calls[p].key.job == jobID
      modifies this
      ensures Represents(LocksAfter(s, s.calls[p]), HeldAfter(s, p, s.calls[p]))
      ensures jobID in locks && m == locks[jobID] && forall r :: m.id == CallAfter(s, s.calls[p], r).mutex
      ensures if jobID in old(locks) then locks == old(locks) else locks == old(locks)[jobID := m] && fresh(m) && !m.locked
    {
      if jobID in locks {
        return locks[jobID];
      }
      m := new Mutex(s.nextMutex);
      locks := locks[jobID := m];
    }

    /** m.Lock(), which is the protocol's step of taking the mutex: it gets on exactly when the protocol
        lets the call act; otherwise the call goes on waiting. */
    method Lock(m: Mutex, ghost s: State, ghost p: nat) returns (got: bool)
      requires Represents(s.locks, s.held) && Numbered(s.locks, s.held, s.nextMutex)
      requires p in s.calls && s.calls[p].pc.AwaitMutex? && s.calls[p].proc == proc
      requires s.calls[p].key.job in locks && m == locks[s.calls[p].key.job] && m.id == s.calls[p].mutex
      modifies m
      ensures got <==> CanAct(s, p)
      ensures if got then m.locked && Represents(s.locks, HeldAfter(s, p, s.calls[p])) else m.locked == old(m.locked)
    {
      got := !m.locked;
      if got {
        m.locked := true;
        assert forall j :: j in locks && locks[j].id == m.id ==> j == s.calls[p].key.job;
      }
    }

    /** The function acquire returns, which is the protocol's release of the mutex. */
    method Unlock(m: Mutex, ghost s: State, ghost p: nat)
      requires Represents(s.locks, s.held) && Numbered(s.locks, s.held, s.nextMutex)
      requires p in s.calls && s.calls[p].pc.ReleaseMutex? && s.calls[p].proc == proc
      requires s.calls[p].key.job in locks && m == locks[s.calls[p].key.job] && m.id == s.calls[p].mutex
      modifies m
      ensures !m.locked && Represents(s.locks, HeldAfter(s, p, s.calls[p]))
    {
      m.locked := false;
      assert forall j :: j in locks && locks[j].id == m.id ==> j == s.calls[p].key.job;
    }
  }

  /** Steps of other processes' calls, and steps that have nothing to do with the mutex, leave what the
      registry represents as it is. */
  lemma OthersKeep(reg: JobMutexRegistry, s: State, q: nat)
    requires reg.Represents(s.locks, s.held) && Numbered(s.locks, s.held, s.nextMutex) && MutexInv(s) && CanAct(s, q)
    requires var c := s.calls[q]; c.proc != reg.proc || !(c.pc.FindMutex? || c.pc.AwaitMutex? || c.pc.ReleaseMutex?)
    ensures reg.Represents(LocksAfter(s, s.calls[q]), HeldAfter(s, q, s.calls[q]))
  {
    assert MutexKnown(s.locks, s.held, q, s.calls[q]);
    forall j | j in reg.locks ensures reg.locks[j].locked <==> reg.locks[j].id in HeldAfter(s, q, s.calls[q]) {
      assert reg.locks[j].id == s.locks[(reg.proc, j)];
    }
  }
}
