/** The cluster as a transition system: any number of Dispatch calls in any number of scheduler
    processes, the orphan sweeps, and whoever else deletes Jobs, interleaved one API call at a
    time. Every API call either takes effect and says so, or fails without effect. */
module Protocol {
  import opened Options
  import opened Names
  import opened LeaseLock

  // ----- what the API server and GitHub store -----

  /** A Job with its gh_job_id label. `maker` records which dispatch created it, if one did. */
  datatype Job = Job(job: string, uid: nat, maker: Option<nat>)

  /** A Secret: the runner whose JIT config it holds, the uid of its owner Job, its creator. */
  datatype Secret = Secret(config: nat, owner: Option<nat>, maker: Option<nat>)

  /** A GitHub runner registration, its creation time if GitHub reports one, its creator. */
  datatype Runner = Runner(name: string, created: Option<nat>, maker: Option<nat>)

  // ----- one Dispatch call -----

  /** The next thing a Dispatch call does. */
  datatype Pc =
    | FirstCheck | FindMutex | AwaitMutex | SecondCheck
    | ReadLease | JudgeLease | CreateLease | UpdateLease | ThirdCheck
    | MintRunner | CreateSecret | CreateJob | SetOwner
    | DropSecretNoJob | DeregisterRunner | DropSecretNoOwner
    | ReleaseLease | ReleaseMutex
    | Returned | Crashed

  datatype Call = Call(
    proc: nat, identity: string, key: Key, pc: Pc,
    mutex: nat,                          // the job's mutex, once looked up
    seen: Option<Lease>, readAt: nat,    // the lease read, and the time it was judged at
    rv: nat,                             // resource version of the lease this call wrote
    runner: Option<nat>, reported: bool, // the runner minted; whether its id was in the response
    mintedAt: nat,
    uid: Option<nat>,                    // the Job created
    ok: bool)                            // the call returns nil

  predicate InFlight(pc: Pc) { pc != Returned && pc != Crashed }

  /** In TryAcquire or in the release function it returned. */
  predicate Leasing(pc: Pc) {
    pc.ReadLease? || pc.JudgeLease? || pc.CreateLease? || pc.UpdateLease? || pc.ReleaseLease?
  }

  /** From the third duplicate check to the point where the lease is released. */
  predicate Building(pc: Pc) {
    || pc.ThirdCheck? || pc.MintRunner? || pc.CreateSecret? || pc.CreateJob? || pc.SetOwner?
    || pc.DropSecretNoJob? || pc.DeregisterRunner? || pc.DropSecretNoOwner?
  }

  /** Between winning the lease and releasing it. */
  predicate Holding(pc: Pc) {
    Building(pc) || pc.ReleaseLease?
  }

  /** Between winning the in-process mutex and unlocking it. */
  predicate InMutex(pc: Pc) {
    || Holding(pc)
    || pc.SecondCheck? || pc.ReadLease? || pc.JudgeLease? || pc.CreateLease? || pc.UpdateLease? || pc.ReleaseMutex?
  }

  /** Between creating the Secret and being done with it. */
  predicate OwnsSecret(pc: Pc) {
    pc.CreateJob? || pc.SetOwner? || pc.DropSecretNoJob? || pc.DropSecretNoOwner?
  }

  // ----- one orphan sweep -----

  datatype Stage = Idle | CheckLock(id: nat) | CheckJobs(id: nat) | Remove(id: nat)

  datatype Sweep = Sweep(passNow: nat, listed: map<nat, Runner>, stage: Stage)

  // ----- the whole system -----

  datatype State = State(
    ttl: Ttl, grace: nat,
    now: nat,
    leases: map<string, Lease>,          // by job id
    jobs: map<string, Job>,              // by object name
    secrets: map<string, Secret>,        // by object name
    runners: map<nat, Runner>,           // by runner id
    locks: map<(nat, string), nat>,      // each process's mutex registry: job id to mutex
    held: map<nat, nat>,                 // locked mutexes and the calls holding them
    dead: set<nat>,                      // crashed processes
    calls: map<nat, Call>,
    sweeps: map<nat, Sweep>,
    nextRv: nat, nextUid: nat, nextRunner: nat, nextMutex: nat)

  predicate HasJob(s: State, job: string) {
    exists n :: n in s.jobs && s.jobs[n].job == job
  }

  predicate LiveUid(s: State, uid: nat) {
    exists n :: n in s.jobs && s.jobs[n].uid == uid
  }

  /** How a call fared: `good` if it took effect; after a failed attempt of a retried stage,
      `giveUp` if it was the last one or the wait was cancelled. GitHub may leave the runner id
      out of its response, and the creation time out of its listing. */
  datatype Reply = Reply(good: bool, giveUp: bool, reported: bool, stamped: bool)

  datatype Event =
    | Tick(d: nat)
    | Start(p: nat, proc: nat, identity: string, key: Key)
    | Act(p: nat, reply: Reply)
    | Crash(proc: nat)
    | DeleteJob(name: string)            // cleaner, TTL controller, operator
    | Collect(name: string)              // garbage collection of a Secret whose owner is gone
    | SweepBegin(w: nat)
    | SweepList(w: nat)
    | SweepPick(w: nat, id: nat)
    | SweepAct(w: nat, good: bool)

  // ----- steps of a Dispatch call -----

  /** A duplicate check: an error or a Job ends the call. */
  function Checked(s: State, c: Call, r: Reply, next: Pc, end: Pc): Call {
    if !r.good then c.(pc := end, ok := false)
    else if HasJob(s, c.key.job) then c.(pc := end, ok := true)
    else c.(pc := next)
  }

  /** A failed attempt of a retried stage: try again, or go on to `next` and return the error. */
  function Failed(c: Call, r: Reply, next: Pc): Call {
    if r.giveUp then c.(pc := next, ok := false) else c
  }

  /** Creating a lease fails if it exists, replacing it fails on a stale version. */
  predicate WinsLease(s: State, c: Call, r: Reply) {
    && r.good
    && (|| (c.pc == CreateLease && c.key.job !in s.leases)
        || (c.pc == UpdateLease && c.key.job in s.leases && c.seen.Some?
            && s.leases[c.key.job].rv == c.seen.value.rv))
  }

  predicate Mints(c: Call, r: Reply) { c.pc == MintRunner && r.good }

  predicate MakesSecret(s: State, c: Call, r: Reply) {
    c.pc == CreateSecret && r.good && SecretName(c.key) !in s.secrets && c.runner.Some?
  }

  predicate MakesJob(s: State, c: Call, r: Reply) {
    c.pc == CreateJob && r.good && JobName(c.key) !in s.jobs
  }

  /** The update carries no resource version: it overwrites whatever has that name. */
  predicate SetsOwner(s: State, c: Call, r: Reply) {
    c.pc == SetOwner && r.good && SecretName(c.key) in s.secrets && c.runner.Some?
  }

  // Where a call goes next, and what it remembers.

  /** What a call was started with. */
  predicate SameCall(c: Call, k: Call) {
    k.proc == c.proc && k.identity == c.identity && k.key == c.key
  }

  /** What the call holds on the API server and on GitHub. */
  predicate SameHoldings(c: Call, k: Call) {
    k.runner == c.runner && k.reported == c.reported && k.mintedAt == c.mintedAt && k.uid == c.uid
  }

  /** The first two duplicate checks and the in-process mutex. */
  function GateAfter(s: State, c: Call, r: Reply): (k: Call)
    requires !Building(c.pc) && !Leasing(c.pc)
    ensures SameCall(c, k) && SameHoldings(c, k) && k.seen == c.seen && k.readAt == c.readAt && k.rv == c.rv
    ensures !Building(k.pc) && (Leasing(k.pc) ==> k.pc.ReadLease?)
    ensures InMutex(k.pc) ==> k.mutex == c.mutex && (InMutex(c.pc) || c.pc.AwaitMutex?)
  {
    match c.pc
    case FirstCheck => Checked(s, c, r, FindMutex, Returned)
    case FindMutex =>
      c.(pc := AwaitMutex,
         mutex := if (c.proc, c.key.job) in s.locks then s.locks[(c.proc, c.key.job)] else s.nextMutex)
    case AwaitMutex => c.(pc := SecondCheck)
    case SecondCheck => Checked(s, c, r, ReadLease, ReleaseMutex)
    case ReleaseMutex => c.(pc := Returned)
    case _ => c
  }

  /** TryAcquire, one API call or clock reading at a time, and the release. */
  function LeaseAfter(s: State, c: Call, r: Reply): (k: Call)
    requires Leasing(c.pc)
    ensures SameCall(c, k) && SameHoldings(c, k) && k.mutex == c.mutex
    ensures InMutex(k.pc) && (Building(k.pc) ==> k.pc.ThirdCheck? && WinsLease(s, c, r))
  {
    match c.pc
    case ReadLease =>
      if !r.good then c.(pc := ReleaseMutex, ok := false)
      else c.(pc := JudgeLease, seen := if c.key.job in s.leases then Some(s.leases[c.key.job]) else None)
    case JudgeLease =>
      if c.seen.None? then c.(pc := CreateLease, readAt := s.now)
      else if HolderActive(c.seen.value, s.ttl, s.now) then c.(pc := ReleaseMutex, ok := true)
      else c.(pc := UpdateLease, readAt := s.now)
    case CreateLease =>
      if WinsLease(s, c, r) then c.(pc := ThirdCheck, rv := s.nextRv)
      else c.(pc := ReleaseMutex, ok := r.good)     // AlreadyExists is not an error
    case UpdateLease =>
      if WinsLease(s, c, r) then c.(pc := ThirdCheck, rv := s.nextRv)
      else c.(pc := ReleaseMutex, ok := false)
    case ReleaseLease => c.(pc := ReleaseMutex)
    case _ => c
  }

  /** The four effects and their compensations. */
  function BuildAfter(s: State, c: Call, r: Reply): (k: Call)
    requires Building(c.pc)
    ensures SameCall(c, k) && k.mutex == c.mutex && k.seen == c.seen && k.readAt == c.readAt && k.rv == c.rv
    ensures Building(k.pc) || k.pc.ReleaseLease?
  {
    match c.pc
    case ThirdCheck => Checked(s, c, r, MintRunner, ReleaseLease)
    case MintRunner =>
      if Mints(c, r) then c.(pc := CreateSecret, runner := Some(s.nextRunner), reported := r.reported, mintedAt := s.now)
      else Failed(c, r, ReleaseLease)
    case CreateSecret => if MakesSecret(s, c, r) then c.(pc := CreateJob) else Failed(c, r, DeregisterRunner)
    case CreateJob =>
      if MakesJob(s, c, r) then c.(pc := SetOwner, uid := Some(s.nextUid)) else Failed(c, r, DropSecretNoJob)
    case SetOwner =>
      if SetsOwner(s, c, r) then c.(pc := ReleaseLease, ok := true) else Failed(c, r, DropSecretNoOwner)
    case DropSecretNoJob => c.(pc := DeregisterRunner)
    case DeregisterRunner => c.(pc := ReleaseLease)
    case DropSecretNoOwner => c.(pc := ReleaseLease)
    case _ => c
  }

  function CallAfter(s: State, c: Call, r: Reply): (k: Call)
    ensures SameCall(c, k)
  {
    if Building(c.pc) then BuildAfter(s, c, r)
    else if Leasing(c.pc) then LeaseAfter(s, c, r)
    else GateAfter(s, c, r)
  }

  // What the step does to each kind of object.

  function LeasesAfter(s: State, c: Call, r: Reply): map<string, Lease> {
    if WinsLease(s, c, r) then s.leases[c.key.job := Claim(c.identity, s.ttl, c.readAt, s.nextRv)]
    else if c.pc == ReleaseLease && r.good then s.leases - {c.key.job}
    else s.leases
  }

  function JobsAfter(s: State, p: nat, c: Call, r: Reply): map<string, Job> {
    if MakesJob(s, c, r) then s.jobs[JobName(c.key) := Job(c.key.job, s.nextUid, Some(p))] else s.jobs
  }

  function SecretsAfter(s: State, p: nat, c: Call, r: Reply): map<string, Secret> {
    var n := SecretName(c.key);
    if MakesSecret(s, c, r) then s.secrets[n := Secret(c.runner.value, None, Some(p))]
    else if SetsOwner(s, c, r) then s.secrets[n := s.secrets[n].(config := c.runner.value, owner := c.uid)]
    else if (c.pc == DropSecretNoJob || c.pc == DropSecretNoOwner) && r.good then s.secrets - {n}
    else s.secrets
  }

  function RunnersAfter(s: State, p: nat, c: Call, r: Reply): map<nat, Runner> {
    if Mints(c, r) then
      s.runners[s.nextRunner := Runner(RunnerName(c.key), if r.stamped then Some(s.now) else None, Some(p))]
    else if c.pc == DeregisterRunner && r.good && c.reported && c.runner.Some? then s.runners - {c.runner.value}
    else s.runners
  }

  /** The registry gains an entry for a job it does not know; entries are never replaced. */
  function LocksAfter(s: State, c: Call): map<(nat, string), nat> {
    if c.pc == FindMutex && (c.proc, c.key.job) !in s.locks then s.locks[(c.proc, c.key.job) := s.nextMutex]
    else s.locks
  }

  function HeldAfter(s: State, p: nat, c: Call): map<nat, nat> {
    if c.pc == AwaitMutex then s.held[c.mutex := p]
    else if c.pc == ReleaseMutex then s.held - {c.mutex}
    else s.held
  }

  predicate CanAct(s: State, p: nat) {
    && p in s.calls
    && InFlight(s.calls[p].pc)
    && (s.calls[p].pc == AwaitMutex ==> s.calls[p].mutex !in s.held)
  }

  function ActStep(s: State, p: nat, r: Reply): State
    requires CanAct(s, p)
  {
    var c := s.calls[p];
    s.(calls := s.calls[p := CallAfter(s, c, r)],
       leases := LeasesAfter(s, c, r), nextRv := if WinsLease(s, c, r) then s.nextRv + 1 else s.nextRv,
       jobs := JobsAfter(s, p, c, r), nextUid := if MakesJob(s, c, r) then s.nextUid + 1 else s.nextUid,
       secrets := SecretsAfter(s, p, c, r),
       runners := RunnersAfter(s, p, c, r), nextRunner := if Mints(c, r) then s.nextRunner + 1 else s.nextRunner,
       locks := LocksAfter(s, c), nextMutex := s.nextMutex + 1,
       held := HeldAfter(s, p, c))
  }

  function CrashStep(s: State, proc: nat): State {
    s.(dead := s.dead + {proc},
       calls := map p | p in s.calls ::
         if s.calls[p].proc == proc && InFlight(s.calls[p].pc) then s.calls[p].(pc := Crashed) else s.calls[p])
  }

  // ----- steps of a sweep -----

  /** Neither unstamped nor young at the time the pass began. */
  predicate OldEnough(r: Runner, passNow: nat, grace: nat) {
    r.created.Some? && !(passNow - r.created.value < grace)
  }

  predicate CanSweep(s: State, w: nat) {
    && w in s.sweeps
    && !s.sweeps[w].stage.Idle?
    && s.sweeps[w].stage.id in s.sweeps[w].listed
    && ParseJobIDFromRunnerName(s.sweeps[w].listed[s.sweeps[w].stage.id].name).Some?
  }

  /** The lock check skips on an active lease only (an error lets the runner through); the Job
      check skips on a Job and on an error. */
  function StageAfter(s: State, v: Sweep, job: string, good: bool): Stage {
    match v.stage
    case CheckLock(id) =>
      if good && job in s.leases && HolderActive(s.leases[job], s.ttl, s.now) then Idle else CheckJobs(id)
    case CheckJobs(id) => if !good || HasJob(s, job) then Idle else Remove(id)
    case _ => Idle
  }

  function SweepStep(s: State, w: nat, good: bool): State
    requires CanSweep(s, w)
  {
    var v := s.sweeps[w];
    var job := ParseJobIDFromRunnerName(v.listed[v.stage.id].name).value;
    s.(sweeps := s.sweeps[w := v.(stage := StageAfter(s, v, job, good))],
       runners := if v.stage.Remove? && good then s.runners - {v.stage.id} else s.runners)
  }

  // ----- runs -----

  /** A definition under `forall n :: Unfold(n) ==> ...` stays folded wherever `Unfold` is not
      mentioned, which spares the proofs that do not need it. */
  predicate Unfold(n: nat) { true }

  predicate Enabled(s: State, e: Event) {
    match e
    case Tick(_) => true
    case Start(p, proc, identity, _) => p !in s.calls && proc !in s.dead && identity != ""
    case Act(p, _) => CanAct(s, p)
    case Crash(_) => true
    case DeleteJob(n) => n in s.jobs
    case Collect(n) => n in s.secrets && s.secrets[n].owner.Some? && !LiveUid(s, s.secrets[n].owner.value)
    case SweepBegin(w) => w in s.sweeps ==> s.sweeps[w].stage.Idle?
    case SweepList(w) => w in s.sweeps && s.sweeps[w].stage.Idle?
    case SweepPick(w, id) =>
      && w in s.sweeps && s.sweeps[w].stage.Idle? && id in s.sweeps[w].listed
      && ParseJobIDFromRunnerName(s.sweeps[w].listed[id].name).Some?
      && OldEnough(s.sweeps[w].listed[id], s.sweeps[w].passNow, s.grace)
    case SweepAct(w, _) => CanSweep(s, w)
  }

  function NewCall(proc: nat, identity: string, key: Key): Call {
    Call(proc, identity, key, FirstCheck, 0, None, 0, 0, None, false, 0, None, false)
  }

  predicate Subset<K, V(==)>(m: map<K, V>, m': map<K, V>) {
    forall k :: k in m ==> k in m' && m[k] == m'[k]
  }

  /** Only a call's own steps touch leases, locks and the counters, create objects and advance it:
      everything else can at most delete objects, and start a call or end it by a crash. */
  ghost predicate Quiet(s: State, t: State) {
    && t.ttl == s.ttl && t.grace == s.grace && s.now <= t.now
    && t.leases == s.leases && t.locks == s.locks && t.held == s.held
    && t.nextRv == s.nextRv && t.nextUid == s.nextUid && t.nextRunner == s.nextRunner
    && Subset(t.jobs, s.jobs) && Subset(t.secrets, s.secrets) && Subset(t.runners, s.runners)
    && (forall n :: n in s.secrets && s.secrets[n].owner.None? ==> n in t.secrets)
    && s.calls.Keys <= t.calls.Keys
    && (forall p :: p in t.calls ==>
          if p in s.calls then t.calls[p] == s.calls[p] || t.calls[p] == s.calls[p].(pc := Crashed)
          else t.calls[p] == NewCall(t.calls[p].proc, t.calls[p].identity, t.calls[p].key) && t.calls[p].identity != "")
  }

  function Next(s: State, e: Event): (t: State)
    requires Enabled(s, e)
    ensures !e.Act? ==> Quiet(s, t)
    ensures !e.Act? && !e.DeleteJob? ==> t.jobs == s.jobs
    ensures !e.Act? && !e.Collect? ==> t.secrets == s.secrets
    ensures !e.Act? && !e.SweepAct? ==> t.runners == s.runners
  {
    match e
    case Tick(d) => s.(now := s.now + d)
    case Start(p, proc, identity, key) =>
      s.(calls := s.calls[p := NewCall(proc, identity, key)])
    case Act(p, r) => ActStep(s, p, r)
    case Crash(proc) => CrashStep(s, proc)
    case DeleteJob(n) => s.(jobs := s.jobs - {n})
    case Collect(n) => s.(secrets := s.secrets - {n})
    case SweepBegin(w) => s.(sweeps := s.sweeps[w := Sweep(s.now, map[], Idle)])
    case SweepList(w) => s.(sweeps := s.sweeps[w := s.sweeps[w].(listed := s.runners)])
    case SweepPick(w, id) => s.(sweeps := s.sweeps[w := s.sweeps[w].(stage := CheckLock(id))])
    case SweepAct(w, good) => SweepStep(s, w, good)
  }

  /** No call in flight; objects left by earlier life of the cluster, Secrets only owned ones. */
  ghost predicate Init(s: State) {
    && s.calls == map[] && s.sweeps == map[] && s.locks == map[] && s.held == map[] && s.dead == {}
    && (forall j :: j in s.leases ==> s.leases[j].rv < s.nextRv)
    && (forall n :: n in s.jobs ==> s.jobs[n].uid < s.nextUid && s.jobs[n].maker.None?)
    && (forall n :: n in s.secrets ==> s.secrets[n].owner.Some? && s.secrets[n].maker.None?)
    && (forall id :: id in s.runners ==> id < s.nextRunner && s.runners[id].maker.None?)
  }

  function Front(es: seq<Event>): seq<Event>
    requires es != []
  {
    es[..|es| - 1]
  }

  function Last(es: seq<Event>): Event
    requires es != []
  {
    es[|es| - 1]
  }

  /** The events can happen in this order from `s`. */
  predicate Valid(s: State, es: seq<Event>) {
    es == [] || (Valid(s, Front(es)) && Enabled(Exec(s, Front(es)), Last(es)))
  }

  /** The state after the events (those that cannot happen are skipped). */
  function Exec(s: State, es: seq<Event>): State {
    if es == [] then s
    else
      var t := Exec(s, Front(es));
      if Enabled(t, Last(es)) then Next(t, Last(es)) else t
  }

  /** Every state of the run satisfies `f`. */
  ghost predicate Always(s: State, es: seq<Event>, f: State -> bool) {
    f(Exec(s, es)) && (es == [] || Always(s, Front(es), f))
  }

  /** Every step of the run satisfies `f`. */
  ghost predicate EachStep(s: State, es: seq<Event>, f: (State, Event) -> bool) {
    es == [] || (EachStep(s, Front(es), f) && f(Exec(s, Front(es)), Last(es)))
  }
}
