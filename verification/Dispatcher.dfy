/** Dispatch in the form of the source, against a cluster that changes under it: between any two
    API calls other dispatches, sweeps, crashes of other processes, deletions and the passage of
    time may happen in any enabled order. Proved to take only steps of the protocol. */
module Dispatcher {
  import opened Options
  import opened Names
  import opened LeaseLock
  import opened Protocol
  import opened Waits
  import LabelQuery
  import B = Backoff

  /** Events that are not the doing, or the end, of call `p`. */
  predicate Foreign(s: State, p: nat, e: Event) {
    && Enabled(s, e)
    && (e.Start? || e.Act? ==> e.p != p)
    && (e.Crash? && p in s.calls ==> s.calls[p].proc != e.proc)
  }

  lemma ForeignKeeps(s: State, p: nat, e: Event)
    requires Foreign(s, p, e) && p in s.calls
    ensures p in Next(s, e).calls && Next(s, e).calls[p] == s.calls[p]
  {
  }

  /** The state after those of the events that can happen and are others'. */
  function Meanwhile(s: State, p: nat, es: seq<Event>): State {
    if es == [] then s
    else
      var t := Meanwhile(s, p, es[..|es| - 1]);
      if Foreign(t, p, es[|es| - 1]) then Next(t, es[|es| - 1]) else t
  }

  /** `s` is the state a valid run from `init` has reached. */
  ghost predicate RunOf(init: State, es: seq<Event>, s: State) {
    forall k :: Unfold(k) ==> Init(init) && Valid(init, es) && s == Exec(init, es)
  }

  lemma RunOfMeans(init: State, es: seq<Event>, s: State)
    requires RunOf(init, es, s)
    ensures Init(init) && Valid(init, es) && s == Exec(init, es)
  {
    assert Unfold(0);
  }

  lemma Extend(init: State, es: seq<Event>, s: State, e: Event)
    requires RunOf(init, es, s) && Enabled(s, e)
    ensures RunOf(init, es + [e], Next(s, e))
  {
    RunOfMeans(init, es, s);
    assert Front(es + [e]) == es && Last(es + [e]) == e;
  }

  class World {
    ghost const init: State
    ghost var trace: seq<Event>
    const script: seq<Turn>
    var st: State
    var turn: nat
    var naps: seq<nat>      // the backoff waits so far, in nanoseconds
    ghost var undone: seq<Pc>      // the stages whose outcome was ignored

    ghost predicate Valid()
      reads this
    {
      RunOf(init, trace, st)
    }

    constructor (s: State, script: seq<Turn>)
      requires Init(s)
      ensures Valid() && st == s && this.script == script && turn == 0 && naps == [] && undone == []
    {
      init, st, trace, turn, naps, undone := s, s, [], 0, [], [];
      this.script := script;
    }

    method Do(e: Event)
      requires Valid() && Enabled(st, e)
      modifies this`st, this`trace
      ensures Valid() && trace == old(trace) + [e] && st == Next(old(st), e)
    {
      Extend(init, trace, st, e);
      st := Next(st, e);
      trace := trace + [e];
    }

    /** Others take their turn. */
    method Others(p: nat)
      requires Valid() && p in st.calls
      modifies this`st, this`trace
      ensures Valid() && st == Meanwhile(old(st), p, TurnAt(script, turn).others)
      ensures p in st.calls && st.calls[p] == old(st).calls[p]
    {
      var es := TurnAt(script, turn).others;
      for i := 0 to |es|
        invariant Valid() && st == Meanwhile(old(st), p, es[..i])
        invariant p in st.calls && st.calls[p] == old(st).calls[p]
      {
        assert es[..i + 1][..i] == es[..i];
        if Foreign(st, p, es[i]) {
          ForeignKeeps(st, p, es[i]);
          Do(es[i]);
        }
      }
      assert es[..|es|] == es;
    }

    /** One API call, or one reading of the clock, of call `p`; `at` is the state that answered. */
    method Call(p: nat) returns (t: Turn, at: State)
      requires Valid() && p in st.calls && InFlight(st.calls[p].pc) && !st.calls[p].pc.AwaitMutex?
      modifies this`st, this`trace, this`turn
      ensures Valid() && turn == old(turn) + 1
      ensures var told := TurnAt(script, old(turn)); t == told.(reply := told.reply.(giveUp := false))
      ensures at == Meanwhile(old(st), p, TurnAt(script, old(turn)).others) && CanAct(at, p) && st == Next(at, Act(p, t.reply))
      ensures p in at.calls && at.calls[p] == old(st).calls[p] && at.ttl == st.ttl
      ensures p in st.calls && st.calls[p] == CallAfter(at, at.calls[p], t.reply)
    {
      Others(p);
      t := TurnAt(script, turn);
      t := t.(reply := t.reply.(giveUp := false));
      turn := turn + 1;
      at := st;
      Do(Act(p, t.reply));
    }

    /** Waiting for the job's mutex: it is free, or (as far as this run goes) the call waits on. */
    method Lock(p: nat) returns (got: bool)
      requires Valid() && p in st.calls && st.calls[p].pc.AwaitMutex?
      modifies this`st, this`trace, this`turn
      ensures Valid() && p in st.calls && turn == old(turn) + 1
      ensures st.calls[p] == if got then old(st).calls[p].(pc := SecondCheck) else old(st).calls[p]
    {
      Others(p);
      turn := turn + 1;
      got := st.calls[p].mutex !in st.held;
      if got {
        Do(Act(p, Reply(true, false, false, false)));
      }
    }

    /** A retried stage is given up. */
    method GiveUp(p: nat)
      requires Valid() && p in st.calls && Retried(st.calls[p].pc)
      modifies this`st, this`trace
      ensures Valid() && p in st.calls
      ensures st.calls[p] == old(st).calls[p].(pc := OnFailure(old(st).calls[p].pc), ok := false)
    {
      Do(Act(p, Reply(false, true, false, false)));
    }

    method Sleep(p: nat, d: nat)
      requires Valid() && p in st.calls
      modifies this`st, this`trace, this`naps
      ensures Valid() && naps == old(naps) + [d]
      ensures d <= 1000 * (st.now - old(st).now) < d + 1000     // the clock counts microseconds
      ensures p in st.calls && st.calls[p] == old(st).calls[p]
    {
      Do(Tick((d + 999) / 1000));
      naps := naps + [d];
    }
  }

  // ----- lock.go -----

  method GetLease(w: World, p: nat) returns (failed: bool, existing: Option<Lease>)
    requires w.Valid() && p in w.st.calls && w.st.calls[p].pc.ReadLease?
    modifies w`st, w`trace, w`turn
    ensures w.Valid() && w.turn == old(w.turn) + 1 && p in w.st.calls && SameCall(old(w.st).calls[p], w.st.calls[p])
    ensures if failed then w.st.calls[p].pc.ReleaseMutex? && !w.st.calls[p].ok
            else w.st.calls[p].pc.JudgeLease? && w.st.calls[p].seen == existing
  {
    var job := w.st.calls[p].key.job;
    var t, at := w.Call(p);
    return !t.reply.good, if job in at.leases then Some(at.leases[job]) else None;
  }

  method Now(w: World, p: nat) returns (now: nat)
    requires w.Valid() && p in w.st.calls && w.st.calls[p].pc.JudgeLease?
    modifies w`st, w`trace, w`turn
    ensures w.Valid() && w.turn == old(w.turn) + 1 && p in w.st.calls && SameCall(old(w.st).calls[p], w.st.calls[p])
    ensures var seen, c := old(w.st).calls[p].seen, w.st.calls[p];
            if seen.None? then c.pc.CreateLease?
            else if HolderActive(seen.value, w.st.ttl, now) then c.pc.ReleaseMutex? && c.ok
            else c.pc.UpdateLease? && c.seen == seen
  {
    var t, at := w.Call(p);
    return at.now;
  }

  /** Creating the lease, or replacing the version read. */
  method PutLease(w: World, p: nat) returns (acquired: bool, failed: bool)
    requires w.Valid() && p in w.st.calls && (w.st.calls[p].pc.CreateLease? || w.st.calls[p].pc.UpdateLease?)
    modifies w`st, w`trace, w`turn
    ensures w.Valid() && w.turn == old(w.turn) + 1 && p in w.st.calls && SameCall(old(w.st).calls[p], w.st.calls[p])
    ensures if acquired then !failed && w.st.calls[p].pc.ThirdCheck?
            else w.st.calls[p].pc.ReleaseMutex? && w.st.calls[p].ok == !failed
  {
    var c := w.st.calls[p];
    var t, at := w.Call(p);
    if c.pc.CreateLease? {
      acquired := t.reply.good && c.key.job !in at.leases;
      failed := !t.reply.good;               // AlreadyExists is not an error
    } else {
      acquired := t.reply.good && c.key.job in at.leases && c.seen.Some? && at.leases[c.key.job].rv == c.seen.value.rv;
      failed := !acquired;
    }
  }

  /** TryAcquire: read the lease, read the clock, then create or overwrite it. */
  method TryAcquire(w: World, p: nat) returns (acquired: bool, failed: bool)
    requires w.Valid() && p in w.st.calls && w.st.calls[p].pc.ReadLease?
    modifies w`st, w`trace, w`turn
    ensures w.Valid() && p in w.st.calls && SameCall(old(w.st).calls[p], w.st.calls[p])
    ensures acquired ==> w.turn == old(w.turn) + 3
    ensures if acquired then !failed && w.st.calls[p].pc.ThirdCheck?
            else w.st.calls[p].pc.ReleaseMutex? && w.st.calls[p].ok == !failed
  {
    var getFailed, existing := GetLease(w, p);
    if getFailed {
      return false, true;
    }
    var now := Now(w, p);
    if existing.Some? && HolderActive(existing.value, w.st.ttl, now) {
      return false, false;
    }
    acquired, failed := PutLease(w, p);
  }

  // ----- jobmutex.go -----

  /** acquire, up to the point of locking: the registry's mutex for the job, or a new one. */
  method FindLock(w: World, p: nat)
    requires w.Valid() && p in w.st.calls && w.st.calls[p].pc.FindMutex?
    modifies w`st, w`trace, w`turn
    ensures w.Valid() && w.turn == old(w.turn) + 1 && p in w.st.calls && SameCall(old(w.st).calls[p], w.st.calls[p])
    ensures w.st.calls[p].pc.AwaitMutex?
  {
    var _, _ := w.Call(p);
  }

  // ----- backoff.go -----

  predicate Retried(pc: Pc) { pc.MintRunner? || pc.CreateSecret? || pc.CreateJob? || pc.SetOwner? }

  function StageNo(pc: Pc): nat
    requires Retried(pc)
  {
    match pc
    case MintRunner => 0
    case CreateSecret => 1
    case CreateJob => 2
    case SetOwner => 3
  }

  function OnSuccess(pc: Pc): Pc
    requires Retried(pc)
  {
    match pc
    case MintRunner => CreateSecret
    case CreateSecret => CreateJob
    case CreateJob => SetOwner
    case SetOwner => ReleaseLease
  }

  function OnFailure(pc: Pc): Pc
    requires Retried(pc)
  {
    match pc
    case MintRunner => ReleaseLease
    case CreateSecret => DeregisterRunner
    case CreateJob => DropSecretNoJob
    case SetOwner => DropSecretNoOwner
  }

  /** Whether the API call of a retried stage took effect. */
  predicate Took(s: State, c: Call, r: Reply) {
    Mints(c, r) || MakesSecret(s, c, r) || MakesJob(s, c, r) || SetsOwner(s, c, r)
  }

  lemma StageOutcome(s: State, c: Call, r: Reply)
    requires Retried(c.pc) && !r.giveUp
    ensures var k := CallAfter(s, c, r);
            if Took(s, c, r) then k.pc == OnSuccess(c.pc) && (c.pc.SetOwner? ==> k.ok) else k == c
  {
  }

  /** One attempt of a retried stage. */
  method Attempt(w: World, p: nat) returns (ok: bool, t: Turn)
    requires w.Valid() && p in w.st.calls && Retried(w.st.calls[p].pc)
    modifies w`st, w`trace, w`turn
    ensures w.Valid() && w.turn == old(w.turn) + 1
    ensures t == TurnAt(w.script, old(w.turn)).(reply := t.reply)
    ensures ok ==> TurnAt(w.script, old(w.turn)).reply.good
    ensures p in w.st.calls && SameCall(old(w.st).calls[p], w.st.calls[p])
    ensures var c, k := old(w.st).calls[p], w.st.calls[p];
            if ok then k.pc == OnSuccess(c.pc) && (c.pc.SetOwner? ==> k.ok) else k == c
  {
    var turn, at := w.Call(p);
    t := turn;
    StageOutcome(at, at.calls[p], t.reply);
    ok := Took(at, at.calls[p], t.reply);
  }

  /** The wait after a failed attempt of stage s: a jittered delay of the key, or the longer
      Retry-After. */
  method Pause(w: World, p: nat, b: B.Backoff, key: string, t: Turn, s: nat) returns (delay: nat)
    requires w.Valid() && b.Valid() && p in w.st.calls
    modifies w`st, w`trace, w`naps, b
    ensures w.Valid() && b.Valid() && w.naps == old(w.naps) + [delay]
    ensures p in w.st.calls && w.st.calls[p] == old(w.st).calls[p]
    ensures delay == B.WaitOf(B.Base(b.cfg, B.Count(old(b.failures), key)), RetryAfter(t, s), t.random)
    ensures B.Count(b.failures, key) == B.Count(old(b.failures), key) + 1
    ensures B.SameBut(key, old(b.failures), b.failures)
  {
    delay := b.DelayFor(key, t.random);
    if RetryAfter(t, s) > delay {
      delay := RetryAfter(t, s);
    }
    w.Sleep(p, delay);
  }

  /** One turn of the retry loop: an attempt, then the reset or, unless it was the last, the wait. */
  method TryOnce(w: World, p: nat, b: B.Backoff, key: string, last: bool)
    returns (done: bool, delay: nat, cancelled: bool)
    requires w.Valid() && b.Valid() && p in w.st.calls && Retried(w.st.calls[p].pc)
    modifies w`st, w`trace, w`turn, w`naps, b
    ensures w.Valid() && b.Valid() && w.turn == old(w.turn) + 1
    ensures p in w.st.calls && SameCall(old(w.st).calls[p], w.st.calls[p])
    ensures var c, k := old(w.st).calls[p], w.st.calls[p];
            if done then k.pc == OnSuccess(c.pc) && (c.pc.SetOwner? ==> k.ok) else k == c
    ensures if done || last then w.naps == old(w.naps)
            else w.naps == old(w.naps) + [delay]
                 && WaitIs(b.cfg, B.Count(old(b.failures), key), StageNo(old(w.st).calls[p].pc), w.script, old(w.turn), delay)
    ensures done ==> TurnAt(w.script, old(w.turn)).reply.good
    ensures cancelled == TurnAt(w.script, old(w.turn)).cancelled
    ensures B.Count(b.failures, key) == if done then 0 else B.Count(old(b.failures), key) + if last then 0 else 1
    ensures done ==> key !in b.entries
    ensures B.SameBut(key, old(b.failures), b.failures)
  {
    var ok, t := Attempt(w, p);
    done, delay, cancelled := ok, 0, t.cancelled;
    if done {
      b.Reset(key);
    } else if !last {
      delay := Pause(w, p, b, key, t, StageNo(w.st.calls[p].pc));
    }
  }

  /** The retry loop: attempts until one succeeds, n are used up, or a wait is cancelled. */
  method RetryLoop(w: World, p: nat, n: nat, b: B.Backoff, key: string)
    returns (ok: bool, attempts: nat, waits: seq<nat>)
    requires w.Valid() && b.Valid() && p in w.st.calls && Retried(w.st.calls[p].pc) && n >= 1
    modifies w`st, w`trace, w`turn, w`naps, b
    ensures w.Valid() && b.Valid()
    ensures p in w.st.calls && SameCall(old(w.st).calls[p], w.st.calls[p])
    ensures var c, k := old(w.st).calls[p], w.st.calls[p];
            if ok then k.pc == OnSuccess(c.pc) && (c.pc.SetOwner? ==> k.ok) else k == c
    ensures w.turn == old(w.turn) + attempts
    ensures Ended(w.script, n, old(w.turn), attempts, |waits|, ok)
    ensures WaitsAre(b.cfg, B.Count(old(b.failures), key), StageNo(old(w.st).calls[p].pc), w.script, old(w.turn), waits)
    ensures w.naps == old(w.naps) + waits
    ensures B.Count(b.failures, key) == if ok then 0 else B.Count(old(b.failures), key) + |waits|
    ensures ok ==> key !in b.entries
    ensures B.SameBut(key, old(b.failures), b.failures)
  {
    attempts, waits := 0, [];
    ghost var k, turn := B.Count(b.failures, key), w.turn;
    ghost var call, failures, naps := w.st.calls[p], b.failures, w.naps;
    ghost var s := StageNo(call.pc);
    while true
      invariant w.Valid() && b.Valid() && w.turn == turn + attempts
      invariant p in w.st.calls && w.st.calls[p] == call
      invariant |waits| == attempts < n && GoesOn(b.cfg, k, s, w.script, turn, waits)
      invariant w.naps == naps + waits
      invariant B.Count(b.failures, key) == k + attempts && B.SameBut(key, failures, b.failures)
      decreases n - attempts
    {
      ghost var i, at := B.Count(b.failures, key), w.turn;
      var done, delay, cancelled := TryOnce(w, p, b, key, attempts + 1 == n);
      attempts := attempts + 1;
      if done || attempts == n {
        LastAttempt(b.cfg, k, s, w.script, n, turn, waits, done);
        return done, attempts, waits;
      }
      ghost var before := waits;
      waits := waits + [delay];
      AnotherWait(b.cfg, k, s, w.script, n, turn, before, delay, waits, i, at);
      if cancelled {
        return false, attempts, waits;
      }
    }
  }

  /** withRetryBackoff, for the stage the call is in. */
  method WithRetry(w: World, p: nat, max: int, b: B.Backoff, key: string)
    returns (ok: bool, attempts: nat, waits: seq<nat>)
    requires w.Valid() && b.Valid() && p in w.st.calls && Retried(w.st.calls[p].pc)
    modifies w`st, w`trace, w`turn, w`naps, b
    ensures w.Valid() && b.Valid()
    ensures p in w.st.calls && SameCall(old(w.st).calls[p], w.st.calls[p])
    ensures var c, k := old(w.st).calls[p], w.st.calls[p];
            if ok then k.pc == OnSuccess(c.pc) && (c.pc.SetOwner? ==> k.ok) else k.pc == OnFailure(c.pc) && !k.ok
    ensures w.turn == old(w.turn) + attempts
    ensures Ended(w.script, max, old(w.turn), attempts, |waits|, ok)
    ensures WaitsAre(b.cfg, B.Count(old(b.failures), key), StageNo(old(w.st).calls[p].pc), w.script, old(w.turn), waits)
    ensures w.naps == old(w.naps) + waits
    // success clears the key, failure leaves it where it got to
    ensures B.Count(b.failures, key) == if ok then 0 else B.Count(old(b.failures), key) + |waits|
    ensures ok ==> key !in b.entries
    ensures B.SameBut(key, old(b.failures), b.failures)
  {
    ok, attempts, waits := RetryLoop(w, p, if max < 1 then 1 else max, b, key);
    if !ok {
      w.GiveUp(p);
    }
  }

  // ----- dispatcher.go -----

  datatype Outcome = Nil | Err | Blocked     // Blocked: still waiting for the job's mutex

  /** isDuplicate at one of its three places: `on` and `end` are where the call goes from there. */
  method IsDuplicate(w: World, p: nat, ghost on: Pc, ghost end: Pc) returns (dup: bool, failed: bool)
    requires w.Valid() && p in w.st.calls
    requires var pc := w.st.calls[p].pc;
             || (pc.FirstCheck? && on == FindMutex && end == Returned)
             || (pc.SecondCheck? && on == ReadLease && end == ReleaseMutex)
             || (pc.ThirdCheck? && on == MintRunner && end == ReleaseLease)
    modifies w`st, w`trace, w`turn
    ensures w.Valid() && w.turn == old(w.turn) + 1 && p in w.st.calls && SameCall(old(w.st).calls[p], w.st.calls[p])
    ensures if dup || failed then w.st.calls[p].pc == end && w.st.calls[p].ok == !failed else w.st.calls[p].pc == on
  {
    var job := w.st.calls[p].key.job;
    var t, at := w.Call(p);
    failed := !t.reply.good;
    dup := t.reply.good && HasJob(at, job);
  }

  /** Where a call goes from a stage whose outcome it ignores. */
  predicate GoesOnTo(pc: Pc, next: Pc) {
    || (pc.DropSecretNoJob? && next == DeregisterRunner)
    || (pc.DeregisterRunner? && next == ReleaseLease)
    || (pc.DropSecretNoOwner? && next == ReleaseLease)
    || (pc.ReleaseLease? && next == ReleaseMutex)
    || (pc.ReleaseMutex? && next == Returned)
  }

  lemma Ignored(s: State, c: Call, r: Reply, next: Pc)
    requires GoesOnTo(c.pc, next)
    ensures CallAfter(s, c, r) == c.(pc := next) && InFlight(c.pc) && !c.pc.AwaitMutex?
  {
  }

  /** A call whose outcome the dispatcher ignores: deleting the Secret, the runner or the lease. */
  method Ignore(w: World, p: nat, ghost next: Pc)
    requires w.Valid() && p in w.st.calls && GoesOnTo(w.st.calls[p].pc, next)
    modifies w`st, w`trace, w`turn, w`undone
    ensures w.Valid() && p in w.st.calls
    ensures SameCall(old(w.st).calls[p], w.st.calls[p])
    ensures w.st.calls[p].pc == next && w.st.calls[p].ok == old(w.st).calls[p].ok
    ensures w.undone == old(w.undone) + [old(w.st).calls[p].pc]
  {
    w.undone := w.undone + [w.st.calls[p].pc];
    var t, at := w.Call(p);
    Ignored(at, at.calls[p], t.reply, next);
  }

  /** What has to be undone when a retried stage is given up, if one is. */
  function Undo(at: Option<Pc>): seq<Pc>
    requires at.Some? ==> Retried(at.value)
  {
    match at
    case None | Some(MintRunner) => []
    case Some(CreateSecret) => [DeregisterRunner]
    case Some(CreateJob) => [DropSecretNoJob, DeregisterRunner]
    case Some(SetOwner) => [DropSecretNoOwner]
  }

  /** The retry keys of a job, one per retried stage. */
  function RetryKey(pc: Pc, job: string): string
    requires Retried(pc)
  {
    match pc
    case MintRunner => "jit-" + job
    case CreateSecret => "secret-" + job
    case CreateJob => "job-" + job
    case SetOwner => "ownerref-" + job
  }

  /** The failures that the stages' keys have left over. */
  function LeftOver(failures: map<string, nat>, job: string): seq<nat> {
    [B.Count(failures, "jit-" + job), B.Count(failures, "secret-" + job),
     B.Count(failures, "job-" + job), B.Count(failures, "ownerref-" + job)]
  }

  /** From stage s on, `ks` is still what the keys have left over. */
  predicate Known(ks: seq<nat>, failures: map<string, nat>, job: string, s: nat) {
    |ks| == 4 && forall i :: s <= i < 4 ==> ks[i] == LeftOver(failures, job)[i]
  }

  /** The stages use different keys: one stage does not use up the next one's short delays. */
  lemma StagesApart(ks: seq<nat>, before: map<string, nat>, after: map<string, nat>, job: string, pc: Pc)
    requires Retried(pc) && Known(ks, before, job, StageNo(pc)) && B.SameBut(RetryKey(pc, job), before, after)
    ensures Known(ks, after, job, StageNo(pc) + 1)
    ensures B.Count(before, RetryKey(pc, job)) == ks[StageNo(pc)]
  {
    assert ("jit-" + job)[0] == 'j' && ("secret-" + job)[0] == 's' && ("job-" + job)[0] == 'j' && ("ownerref-" + job)[0] == 'o';
    assert ("jit-" + job)[1] == 'i' && ("job-" + job)[1] == 'o';
  }

  /** One retried stage: its waits, and where the next stage stands. */
  method Stage(w: World, p: nat, max: int, b: B.Backoff, key: string, ghost ks: seq<nat>)
    returns (ok: bool, ghost attempts: nat, ghost waits: seq<nat>)
    requires w.Valid() && b.Valid() && p in w.st.calls && Retried(w.st.calls[p].pc)
    requires key == RetryKey(w.st.calls[p].pc, w.st.calls[p].key.job)
    requires Known(ks, b.failures, w.st.calls[p].key.job, StageNo(w.st.calls[p].pc))
    modifies w`st, w`trace, w`turn, w`naps, b
    ensures w.Valid() && b.Valid()
    ensures p in w.st.calls && SameCall(old(w.st).calls[p], w.st.calls[p])
    ensures var c, k := old(w.st).calls[p], w.st.calls[p];
            if ok then k.pc == OnSuccess(c.pc) && (c.pc.SetOwner? ==> k.ok) else k.pc == OnFailure(c.pc) && !k.ok
    ensures w.naps == old(w.naps) + waits && w.turn == old(w.turn) + attempts
    ensures var s := StageNo(old(w.st).calls[p].pc);
            && Known(ks, b.failures, old(w.st).calls[p].key.job, s + 1)
            && WaitsAre(b.cfg, ks[s], s, w.script, old(w.turn), waits)
            && Ended(w.script, max, old(w.turn), attempts, |waits|, ok)
  {
    ghost var failures, c := b.failures, w.st.calls[p];
    var done, n, ws := WithRetry(w, p, max, b, key);
    ok, attempts, waits := done, n, ws;
    StagesApart(ks, failures, b.failures, c.key.job, c.pc);
  }

  /** From the third duplicate check to the release of the lease: mint, Secret, Job, owner. */
  method Build(w: World, p: nat, max: int, b: B.Backoff, ghost ks: seq<nat>)
    returns (res: Outcome, ghost waits: seq<nat>, ghost built: bool, ghost at: Option<Pc>)
    requires w.Valid() && b.Valid() && p in w.st.calls && w.st.calls[p].pc.ThirdCheck?
    requires Known(ks, b.failures, w.st.calls[p].key.job, 0)
    modifies w`st, w`trace, w`turn, w`naps, w`undone, b
    ensures w.Valid() && b.Valid()
    ensures p in w.st.calls && SameCall(old(w.st).calls[p], w.st.calls[p])
    ensures w.st.calls[p].pc.ReleaseLease? && !res.Blocked? && w.st.calls[p].ok == res.Nil?
    ensures (at.Some? ==> Retried(at.value)) && (built ==> at.Some? == res.Err?) && (!built ==> at.None?)
    ensures w.undone == old(w.undone) + Undo(at)
    ensures w.naps == old(w.naps) + waits
    ensures if built then Runs(b.cfg, max, ks, w.script, 0, 0, old(w.turn) + 1, waits) else waits == []
  {
    var job := w.st.calls[p].key.job;
    var dup, failed := IsDuplicate(w, p, MintRunner, ReleaseLease);
    if dup || failed {
      return if failed then Err else Nil, [], false, None;
    }
    ghost var turn, attempts := w.turn, 0;
    var minted;
    minted, attempts, waits := Stage(w, p, max, b, "jit-" + job, ks);
    if !minted {
      StageOnly(b.cfg, max, ks, w.script, 0, turn, attempts, waits, false);
      return Err, waits, true, Some(MintRunner);
    }
    ghost var rest;
    res, rest, at := BuildObjects(w, p, max, b, ks);
    StageAnd(b.cfg, max, ks, w.script, 0, turn, attempts, waits, rest);
    waits, built := waits + rest, true;
  }

  /** With a runner minted: create the Secret, then the Job, or undo. */
  method BuildObjects(w: World, p: nat, max: int, b: B.Backoff, ghost ks: seq<nat>)
    returns (res: Outcome, ghost waits: seq<nat>, ghost at: Option<Pc>)
    requires w.Valid() && b.Valid() && p in w.st.calls && w.st.calls[p].pc.CreateSecret?
    requires Known(ks, b.failures, w.st.calls[p].key.job, 1)
    modifies w`st, w`trace, w`turn, w`naps, w`undone, b
    ensures w.Valid() && b.Valid()
    ensures p in w.st.calls && SameCall(old(w.st).calls[p], w.st.calls[p])
    ensures w.st.calls[p].pc.ReleaseLease? && !res.Blocked? && w.st.calls[p].ok == res.Nil?
    ensures (at.Some? ==> Retried(at.value) && StageNo(at.value) >= 1) && at.Some? == res.Err?
    ensures w.undone == old(w.undone) + Undo(at)
    ensures w.naps == old(w.naps) + waits
    ensures Runs(b.cfg, max, ks, w.script, 1, 0, old(w.turn), waits)
  {
    var job := w.st.calls[p].key.job;
    ghost var turn, attempts := w.turn, 0;
    var stored;
    stored, attempts, waits := Stage(w, p, max, b, "secret-" + job, ks);
    if !stored {
      StageOnly(b.cfg, max, ks, w.script, 1, turn, attempts, waits, false);
      Ignore(w, p, ReleaseLease);
      return Err, waits, Some(CreateSecret);
    }
    ghost var rest;
    res, rest, at := BuildJob(w, p, max, b, ks);
    StageAnd(b.cfg, max, ks, w.script, 1, turn, attempts, waits, rest);
    waits := waits + rest;
  }

  /** With a runner and its Secret in place: create the Job and make it the owner, or undo. */
  method BuildJob(w: World, p: nat, max: int, b: B.Backoff, ghost ks: seq<nat>)
    returns (res: Outcome, ghost waits: seq<nat>, ghost at: Option<Pc>)
    requires w.Valid() && b.Valid() && p in w.st.calls && w.st.calls[p].pc.CreateJob?
    requires Known(ks, b.failures, w.st.calls[p].key.job, 2)
    modifies w`st, w`trace, w`turn, w`naps, w`undone, b
    ensures w.Valid() && b.Valid()
    ensures p in w.st.calls && SameCall(old(w.st).calls[p], w.st.calls[p])
    ensures w.st.calls[p].pc.ReleaseLease? && !res.Blocked? && w.st.calls[p].ok == res.Nil?
    ensures (at.Some? ==> Retried(at.value) && StageNo(at.value) >= 2) && at.Some? == res.Err?
    ensures w.undone == old(w.undone) + Undo(at)
    ensures w.naps == old(w.naps) + waits
    ensures Runs(b.cfg, max, ks, w.script, 2, 0, old(w.turn), waits)
  {
    var job := w.st.calls[p].key.job;
    ghost var turn, attempts := w.turn, 0;
    var created;
    created, attempts, waits := Stage(w, p, max, b, "job-" + job, ks);
    if !created {
      StageOnly(b.cfg, max, ks, w.script, 2, turn, attempts, waits, false);
      Ignore(w, p, DeregisterRunner);
      Ignore(w, p, ReleaseLease);
      return Err, waits, Some(CreateJob);
    }
    ghost var rest;
    res, rest, at := LinkSecret(w, p, max, b, ks);
    StageAnd(b.cfg, max, ks, w.script, 2, turn, attempts, waits, rest);
    waits := waits + rest;
  }

  /** Make the Job the owner of the Secret, or drop the Secret. */
  method LinkSecret(w: World, p: nat, max: int, b: B.Backoff, ghost ks: seq<nat>)
    returns (res: Outcome, ghost waits: seq<nat>, ghost at: Option<Pc>)
    requires w.Valid() && b.Valid() && p in w.st.calls && w.st.calls[p].pc.SetOwner?
    requires Known(ks, b.failures, w.st.calls[p].key.job, 3)
    modifies w`st, w`trace, w`turn, w`naps, w`undone, b
    ensures w.Valid() && b.Valid()
    ensures p in w.st.calls && SameCall(old(w.st).calls[p], w.st.calls[p])
    ensures w.st.calls[p].pc.ReleaseLease? && !res.Blocked? && w.st.calls[p].ok == res.Nil?
    ensures at == if res.Err? then Some(SetOwner) else None
    ensures w.undone == old(w.undone) + Undo(at)
    ensures w.naps == old(w.naps) + waits
    ensures Runs(b.cfg, max, ks, w.script, 3, 0, old(w.turn), waits)
  {
    ghost var turn, attempts := w.turn, 0;
    var owned;
    owned, attempts, waits := Stage(w, p, max, b, "ownerref-" + w.st.calls[p].key.job, ks);
    StageOnly(b.cfg, max, ks, w.script, 3, turn, attempts, waits, owned);
    if !owned {
      Ignore(w, p, ReleaseLease);
      return Err, waits, Some(SetOwner);
    }
    return Nil, waits, None;
  }

  /** How one dispatch went: whether it got the mutex, won the lease and came to the first of the four
      stages; the stage it gave up, if one; its waits. */
  datatype Course = Course(locked: bool, won: bool, built: bool, failed: Option<Pc>, waits: seq<nat>)

  const NOTHING := Course(false, false, false, None, [])

  /** A dispatch that gives up a stage returns its error. */
  predicate Ends(c: Course, res: Outcome) {
    && (c.built ==> c.won) && (c.won ==> c.locked) && (c.locked ==> !res.Blocked?)
    && (c.failed.Some? ==> c.built && Retried(c.failed.value))
    && (c.built ==> (c.failed.Some? <==> res.Err?))
  }

  /** What it cleans up: what the stage it gave up needs, the lease if it was won, the mutex. */
  function Cleanup(c: Course): seq<Pc>
    requires c.failed.Some? ==> Retried(c.failed.value)
  {
    Undo(c.failed) + (if c.won then [ReleaseLease] else []) + if c.locked then [ReleaseMutex] else []
  }

  /** Its waits are those of its four stages, the first attempt being that turn; if it got that far. */
  ghost predicate Waited(c: Course, cfg: B.Config, max: int, ks: seq<nat>, script: seq<Turn>, turn: nat) {
    forall n :: Unfold(n) ==> if c.built then Runs(cfg, max, ks, script, 0, 0, turn, c.waits) else c.waits == []
  }

  /** Default delays and attempts, no failures left over, and the first two errors of the request for
      a runner ask for at most 12 s and 18 s. */
  ghost predicate Brisk(cfg: B.Config, max: int, ks: seq<nat>, script: seq<Turn>, turn: nat) {
    && cfg == B.DEFAULT && max == 3 && NoneLeft(ks, 0)
    && Ra(script, turn) <= 12 * B.SECOND && Ra(script, turn + 1) <= 18 * B.SECOND
  }

  lemma BriskCap(c: Course, cfg: B.Config, max: int, ks: seq<nat>, script: seq<Turn>, turn: nat)
    requires |ks| == 4 && Brisk(cfg, max, ks, script, turn) && Waited(c, cfg, max, ks, script, turn)
    ensures B.Sum(c.waits) <= 120 * B.SECOND
  {
    assert Unfold(0);
    DefaultCapExact(ks, script, turn);
    assert SameRa(script, script);
  }

  /** Take the lease, build, give it back. */
  method Leased(w: World, p: nat, max: int, b: B.Backoff) returns (res: Outcome, ghost course: Course)
    requires w.Valid() && b.Valid() && p in w.st.calls && w.st.calls[p].pc.ReadLease?
    modifies w`st, w`trace, w`turn, w`naps, w`undone, b
    ensures w.Valid() && b.Valid()
    ensures p in w.st.calls && SameCall(old(w.st).calls[p], w.st.calls[p])
    ensures w.st.calls[p].pc.ReleaseMutex? && !res.Blocked? && w.st.calls[p].ok == res.Nil?
    ensures course.locked && Ends(course, res) && w.undone + [ReleaseMutex] == old(w.undone) + Cleanup(course)
    ensures w.naps == old(w.naps) + course.waits
    ensures Waited(course, b.cfg, max, LeftOver(old(b.failures), old(w.st).calls[p].key.job), w.script, old(w.turn) + 4)
  {
    ghost var ks := LeftOver(b.failures, w.st.calls[p].key.job);
    var acquired, failed := TryAcquire(w, p);
    if !acquired {
      return if failed then Err else Nil, NOTHING.(locked := true);
    }
    ghost var waits, built, at;
    res, waits, built, at := Build(w, p, max, b, ks);
    Ignore(w, p, ReleaseMutex);
    course := Course(true, true, built, at, waits);
  }

  /** Under the job's mutex: check again, do the rest under the lease, give the mutex back. */
  method Locked(w: World, p: nat, max: int, b: B.Backoff) returns (res: Outcome, ghost course: Course)
    requires w.Valid() && b.Valid() && p in w.st.calls && w.st.calls[p].pc.SecondCheck?
    modifies w`st, w`trace, w`turn, w`naps, w`undone, b
    ensures w.Valid() && b.Valid()
    ensures p in w.st.calls && SameCall(old(w.st).calls[p], w.st.calls[p])
    ensures w.st.calls[p].pc.Returned? && !res.Blocked? && w.st.calls[p].ok == res.Nil?
    ensures course.locked && Ends(course, res) && w.undone == old(w.undone) + Cleanup(course)
    ensures w.naps == old(w.naps) + course.waits
    ensures Waited(course, b.cfg, max, LeftOver(old(b.failures), old(w.st).calls[p].key.job), w.script, old(w.turn) + 5)
  {
    var dup, failed := IsDuplicate(w, p, ReadLease, ReleaseMutex);
    if dup || failed {
      res, course := if failed then Err else Nil, NOTHING.(locked := true);
    } else {
      res, course := Leased(w, p, max, b);
    }
    Ignore(w, p, Returned);
  }

  /** From the first duplicate check to the return. */
  method Run(w: World, p: nat, max: int, b: B.Backoff) returns (res: Outcome, ghost course: Course)
    requires w.Valid() && b.Valid() && p in w.st.calls && w.st.calls[p].pc.FirstCheck?
    modifies w`st, w`trace, w`turn, w`naps, w`undone, b
    ensures w.Valid() && b.Valid()
    ensures p in w.st.calls && SameCall(old(w.st).calls[p], w.st.calls[p])
    ensures if res.Blocked? then w.st.calls[p].pc.AwaitMutex?
            else w.st.calls[p].pc.Returned? && w.st.calls[p].ok == res.Nil?
    ensures Ends(course, res) && w.undone == old(w.undone) + Cleanup(course)
    ensures w.naps == old(w.naps) + course.waits
    ensures Waited(course, b.cfg, max, LeftOver(old(b.failures), old(w.st).calls[p].key.job), w.script, old(w.turn) + 8)
  {
    var dup, failed := IsDuplicate(w, p, FindMutex, Returned);
    if dup || failed {
      return if failed then Err else Nil, NOTHING;
    }
    FindLock(w, p);
    var got := w.Lock(p);
    if !got {
      return Blocked, NOTHING;
    }
    res, course := Locked(w, p, max, b);
  }

  /** Dispatch of a request whose labels are in order. */
  method StartAndRun(w: World, p: nat, proc: nat, identity: string, key: Key, max: int, b: B.Backoff)
    returns (res: Outcome, ghost course: Course)
    requires w.Valid() && b.Valid() && p !in w.st.calls && proc !in w.st.dead && identity != ""
    modifies w`st, w`trace, w`turn, w`naps, w`undone, b
    ensures w.Valid() && b.Valid()
    ensures p in w.st.calls && SameCall(NewCall(proc, identity, key), w.st.calls[p])
    ensures if res.Blocked? then w.st.calls[p].pc.AwaitMutex?
            else w.st.calls[p].pc.Returned? && w.st.calls[p].ok == res.Nil?
    ensures Ends(course, res) && w.undone == old(w.undone) + Cleanup(course)
    ensures w.naps == old(w.naps) + course.waits
    ensures Waited(course, b.cfg, max, LeftOver(old(b.failures), key.job), w.script, old(w.turn) + 8)
    ensures Brisk(b.cfg, max, LeftOver(old(b.failures), key.job), w.script, old(w.turn) + 8) ==> B.Sum(course.waits) <= 120 * B.SECOND
  {
    ghost var ks, turn := LeftOver(b.failures, key.job), w.turn + 8;
    w.Do(Start(p, proc, identity, key));
    res, course := Run(w, p, max, b);
    if Brisk(b.cfg, max, ks, w.script, turn) {
      BriskCap(course, b.cfg, max, ks, w.script, turn);
    }
  }

  /** Dispatch, whatever happens around it: labels decide before any API call is made; after that
      it is one call of the protocol from start to return, and returns nil exactly when the
      protocol says so. It cleans up what the stage it gave up needs, the lease and the mutex, in
      that order. Its waits are exactly those of its four stages, the first attempt being the ninth
      turn; so WaitBoundExact tells how long they can be in all, and with the default delays and
      attempts DefaultCapExact when they stay within 120 s, the default time to live of its lease. */
  method Dispatch(w: World, p: nat, proc: nat, identity: string, key: Key,
                  labels: seq<string>, defaults: LabelQuery.Defaults, max: int, b: B.Backoff)
    returns (res: Outcome, ghost course: Course)
    requires w.Valid() && b.Valid() && p !in w.st.calls && proc !in w.st.dead && identity != ""
    modifies w`st, w`trace, w`turn, w`naps, w`undone, b
    ensures w.Valid() && b.Valid()
    ensures !LabelQuery.Managed(labels) ==> res.Nil? && w.trace == old(w.trace) && w.st == old(w.st)
    ensures LabelQuery.Managed(labels) && LabelQuery.Meaning(labels, defaults).Rejected? ==>
              res.Err? && w.trace == old(w.trace) && w.st == old(w.st)
    ensures LabelQuery.Meaning(labels, defaults).Parsed? ==>
              && p in w.st.calls && SameCall(NewCall(proc, identity, key), w.st.calls[p])
              && (if res.Blocked? then w.st.calls[p].pc.AwaitMutex?
                  else w.st.calls[p].pc.Returned? && w.st.calls[p].ok == res.Nil?)
    ensures Ends(course, res) && w.undone == old(w.undone) + Cleanup(course)
    ensures w.naps == old(w.naps) + course.waits
    ensures Waited(course, b.cfg, max, LeftOver(old(b.failures), key.job), w.script, old(w.turn) + 8)
    ensures Brisk(b.cfg, max, LeftOver(old(b.failures), key.job), w.script, old(w.turn) + 8) ==> B.Sum(course.waits) <= 120 * B.SECOND
  {
    if LabelQuery.Meaning(labels, defaults).Parsed? {
      LabelQuery.ParsedIsManaged(labels, defaults);
    }
    if !LabelQuery.Managed(labels) {
      return Nil, NOTHING;
    }
    var spec := LabelQuery.Parse(labels, defaults);
    if spec.Rejected? {
      return Err, NOTHING;
    }
    res, course := StartAndRun(w, p, proc, identity, key, max, b);
  }
}
