# gha-scheduler, modelled and proved in Dafny

The scheduler turns queued GitHub workflow jobs into Kubernetes Jobs. Several replicas, each with many
goroutines, may dispatch the same job at once, while janitors look at the same Jobs, leases and runners and
delete or re-dispatch. This project models that protocol, the janitors, and the caches and indexes that must
agree with a simple description of what they hold, and proves what they promise.

`dafny verify dfyconfig.toml` checks everything.

## How it is built

- `Protocol` is the cluster as a transition system: leases with a resource version, Jobs and Secrets by name,
  runner registrations by id, one monotone clock, and any number of Dispatch calls in any number of processes,
  of orphan sweeps, crashes, deletions of Jobs and garbage collections. Every API call is one atomic step that
  takes effect or fails without effect; `Steps` says what each of them does. `Exclusion`, `JobUniqueness`,
  `SecretGate`, `Bookkeeping`, `Conservation`, `Outcomes`, `LeaseLimits` and `OrphanSafety` reason about all runs, by
  induction on the run, with the time hypotheses (`Timely`, `Prompt`) stated where a result needs one and nowhere
  else.
- `Dispatcher` is Dispatch in the form of the source: a sequence of calls with retries, early returns and
  compensation, against a world that changes between any two of its API calls. It is proved to be one call of
  the protocol, step by step, so everything proved of the protocol holds of it. `Backoff` keeps its retry
  delays, and `Waits` says what they add up to; `JobMutex` is the registry that the protocol's maps of mutexes stand
  for, operation by operation.
- `JobCleaner`, `StaleSweep`, `OrphanSweep` and `Reconciler` are the janitors, each as methods over mutable
  state proved equal to a function of what they were told, about which the properties are then proved.
- `Pods` and `PodWatch` are the pod watcher; `ObjectKeys`, `CacheStore`, `PercentEncoding` and `CacheHandler`
  the cache sidecar; `Timestamps`, `Sorting`, `Pagination` and `Percentile` the job store; `LabelQuery`,
  `Names`, `Decimal` and `Repos` the text formats in between.

## What was found

- A lease is exclusive only as long as nobody holds it past RenewTime plus its duration: it is never renewed
  and it is released by name. `LeaseLimits.LateHolderIsOvertaken` shows three API calls by which any later moment
  leads to two holders, `LeaseLimits.ExclusionNeedsTime` that runs lead there. The Secret's name is a second gate
  that holds without the hypothesis.
- The waits of a dispatch are bounded by the default time to live of the lease, 120 s, if and only if no retry key
  has a failure left over from an earlier dispatch, and GitHub's first error of the request for a runner asks for at
  most 12 s, the second for at most 18 s; errors of the Kubernetes client carry no Retry-After
  (`Waits.DefaultCapExact`, with a failing run for every other input in `Waits.CapBroken`).
  The time the API calls themselves take comes on top.
- The reconciler's cooldown is measured between marks, which carry the time their turn began. A Dispatch call that
  comes late in its turn can be repeated as soon as the next turn begins: with a cooldown of five minutes, when
  failing calls keep a turn busy for six, at once. `Reconciler.CallSpacingExact` says how far apart calls are.
- The comment on `FindKeys` promises the exact match first; the result is sorted.
  `CacheStore.ExactMatchFirst` says exactly when the exact match still comes first.
- The size check of finalize wraps around at 2^64. It is exact if and only if the claimed size fits a signed
  64-bit number (`CacheHandler.SizeCheckExact`).
- A blob URL leads back to its key if and only if the key holds no slash (`CacheHandler.BlobTarget`).
- Following cursors skips rows if and only if rows with the same time lie on either side of a page boundary
  (`Pagination.FollowingExact`).
- Jobs are listed by the byte order of the stored time text, whose fraction loses its trailing zeros. Within a
  second this is the order of time only under the condition of `Timestamps.SecondInOrder`.
- A pod has its running event after its completed one if and only if it is over without having started, is delivered
  as new and starts then or later (`PodWatch.SteadyOrderExact`, and without any hypothesis `PodWatch.OrderExact`).
- The watcher's `itoa` prints the least 64-bit integer as a bare sign (`Decimal.Itoa`).

## Assumptions

- An API call that reports failure had no effect. Calls that are carried out but reported as failed are not
  considered.
- All processes read the same clock. Locker identities are not empty.
- Nobody but the dispatches and the garbage collector deletes the Secrets, and nobody but the lockers touches
  the leases.
- Backoff has the configured multiplier 3/2 and jitter 1/5 and is computed in integers, percentiles in reals.
- GitHub job ids are unique across repositories, so the owner and repository of a status request only route it.

## Model

| member | source | states |
|---|---|---|
| Exclusion.LeaseExclusion | internal/dispatch/lock.go:56-122 | in every interleaving of any number of replicas, crashes and failed releases included: if no tenure outlives RenewTime plus the effective duration, a job's lease has at most one holder, and the stored lease of a holder is its own, so a release deletes nobody else's |
| LeaseLimits.LateHolderIsOvertaken | internal/dispatch/lock.go:56-122 | in any state where every holder has its own lease and one holds it past the hypothesis, three successful API calls of another replica that is about to read it give it a second holder |
| LeaseLimits.ExclusionNeedsTime | internal/dispatch/lock.go:56-122 | and such states are reached: from every initial state in which a job has neither Job nor lease there is a valid run to a state with two holders |
| Exclusion.WonLeaseWasFree | internal/dispatch/lock.go:68-98 | creating the lease, or replacing the version read, never succeeds while a timely holder has it |
| Exclusion.ReadLeasesHold | internal/dispatch/lock.go:60-98 | in every run: a lease about to be replaced is, as long as its version is unchanged, the lease that was read and judged inactive |
| Exclusion.MutexExclusion | internal/dispatch/jobmutex.go:14-24 | in every run, with no hypothesis on time: at most one call per process and job is past the mutex, because an entry is never replaced |
| LeaseLock.ClaimActive | internal/dispatch/lock.go:65-122 | a claim is active exactly until the whole seconds of its time to live are over, or the full time to live if there are none; an empty holder never is |
| LeaseLock.ActiveExact | internal/dispatch/lock.go:110-122 | any other lease keeps others out exactly if it has a holder and a renewal, until the seconds it names are over, or the reader's time to live if it names none |
| JobUniqueness.NoMintWhileJobExists | internal/dispatch/dispatcher.go:138-191 | while one call at a time holds the lease of a job, no runner, Secret or Job for it is requested as long as a Job for it exists |
| JobUniqueness.AtMostOneCreator | internal/dispatch/dispatcher.go:138-260 | and without Job deletions at most one dispatch over all replicas ever creates a Job for it |
| JobUniqueness.ReplicasMakeOneJob | internal/dispatch/dispatcher.go:138-260 | across replicas both follow from timely tenures |
| JobUniqueness.ProcessMakesOneJob | internal/dispatch/jobmutex.go:14-24 | inside one process both follow from the mutex registry alone, whatever the clock does |
| SecretGate.OneSecretUser | internal/dispatch/dispatcher.go:168-216 | even with leases expiring and being stolen, at most one dispatch of a (run, job) is between creating its Secret and being done with it, and the stored Secret is the one it created |
| SecretGate.TouchesOnlyOwnSecret | internal/dispatch/dispatcher.go:245-283 | whatever Secret a dispatch overwrites or deletes, it created that one |
| SecretGate.GateHolds | internal/dispatch/dispatcher.go:204-283 | the invariant behind both, over every run |
| Bookkeeping.BooksHold | internal/dispatch/dispatcher.go:172-283 | in every run: which stages of a call go with a minted runner and a created Job, and every stored Job and runner that a dispatch made is the one on record in that dispatch, under the names of its key |
| Conservation.NothingLeftBehind | internal/dispatch/dispatcher.go:186-306 | at quiescence, if nothing crashed and no compensating delete failed: every Secret is owned by a live Job, every live Job whose dispatch returned nil has the Secret with its own runner's config, every reported runner of a dispatch without a Job is deregistered |
| Conservation.ConservedHolds | internal/dispatch/dispatcher.go:186-306 | the invariant behind it while calls are still running |
| Outcomes.ReleaseFrees | internal/dispatch/lock.go:101-108 | a release that works takes away the lease of the call's job, and no other |
| Outcomes.LeasesAccounted | internal/dispatch/lock.go:56-122 | over every run without crashes and failed releases: each stored lease was there from the start or is the claim of a call that still holds it |
| Outcomes.MutexesHeldByUsers | internal/dispatch/jobmutex.go:14-24 | in every run a locked mutex is that of a call past it, or of one that crashed there |
| Outcomes.NothingLeftLocked | internal/dispatch/dispatcher.go:138-160 | so at quiescence, nothing having crashed and no release failed, no dispatch has left a lease or a locked mutex behind |
| Outcomes.ResultsHaveReasons | internal/dispatch/dispatcher.go:115-286 | in every run: a dispatch that returned nil has linked its Secret to its Job, or found a Job, an active lease or a lease in its way; one that returned an error had a step that failed, met a newer lease or a taken name, or missed its Secret |
| OrphanSafety.SweepSparesUsedRunners | internal/reconciler/orphan_runners.go:93-127 | with the sweep's lock check, Job check and delete as separate interleaved steps: if every dispatch ends within the grace period of registering its runner, a runner about to be deleted belongs to a dispatch that is over, has no live Job and never will have one |
| OrphanSafety.SweepsHold | internal/reconciler/orphan_runners.go:74-143 | the invariant behind it over every run |
| OrphanSafety.OverForGood | internal/dispatch/dispatcher.go:115-286 | a dispatch that is over stays over and creates no Job, whatever happens next |
| Protocol.Next | internal/dispatch/dispatcher.go:115-306 | only a call's own step touches leases, mutexes and counters, creates objects or advances it; everything else at most deletes objects, and starts calls or ends them by a crash |
| Protocol.GateAfter | internal/dispatch/dispatcher.go:138-151 | duplicate checks and mutex leave the call's lease record and its objects alone and lead into the locker only at its start; the mutex is remembered from its lookup to its release |
| Protocol.LeaseAfter | internal/dispatch/lock.go:56-108 | the locker leaves the call's objects alone and lets it build only with a lease it has just won |
| Protocol.BuildAfter | internal/dispatch/dispatcher.go:162-283 | every way through the four effects and their compensations ends at the release of the lease |
| Steps.FailuresHaveNoEffect | internal/dispatch/dispatcher.go:115-306 | an API call that fails changes nothing that is stored, and no step touches another call |
| Steps.CheckStep | internal/dispatch/dispatcher.go:132-166 | a duplicate check ends the call with the error, or with nil if there is a Job of its id, and lets it go on otherwise |
| Steps.MutexStep | internal/dispatch/jobmutex.go:14-24 | the mutex of a process and job is looked up or made, taken, and given back |
| Steps.ReadStep | internal/dispatch/lock.go:60-88 | the lease is read, and an active one ends the call with nil |
| Steps.ClaimStep | internal/dispatch/lock.go:65-99 | a lease is created if there is none, and nil returned if one is in the way; it is replaced if it is still the version that was read, and the error returned if not |
| Steps.MintStep | internal/dispatch/dispatcher.go:168-191 | a runner is registered under the call's name and remembered |
| Steps.SecretStep | internal/dispatch/dispatcher.go:193-216 | the Secret with its config is created, without an owner, unless its name is taken |
| Steps.JobStep | internal/dispatch/dispatcher.go:244-260 | the Job is created with a fresh uid unless its name is taken |
| Steps.OwnerStep | internal/dispatch/dispatcher.go:266-286 | whatever Secret has the name is given the call's config and its Job as owner, and the call returns nil |
| Steps.DropStep | internal/dispatch/dispatcher.go:211-306 | the deletions of Secret, runner and lease remove just those, and the call goes on whether they work or not |
| Steps.SweepPickStep | internal/reconciler/orphan_runners.go:74-106 | an interleaved sweep looks exactly at the listed runners that are named after a job, stamped, and were old enough when the pass began |
| Steps.SweepActStep | internal/reconciler/orphan_runners.go:107-127 | an active lease ends the look, a failed check of it does not; a Job or a failed listing ends it; otherwise the runner is removed |
| Steps.StartStep | internal/dispatch/dispatcher.go:115-137 | a call starts with the first duplicate check and nothing got yet |
| Steps.OthersStep | internal/dispatch/dispatcher.go:266-278 | crashes end the calls of a process and nothing else, and a Secret is collected exactly when the Job that owns it is gone |
| Dispatcher.Dispatch | internal/dispatch/dispatcher.go:115-286 | whatever others do in between: unmanaged labels return nil and bad ones an error with no API call made; otherwise the run is one call of the protocol, in the end returned with the result the protocol has, or still waiting for the mutex; it undoes what the stage it gave up needs, then releases the lease if it won it and the mutex if it got it; if it comes to its four stages its waits are exactly theirs, given the failures left over from earlier dispatches, the replies, Retry-Afters, random numbers and cancellations, and otherwise none; at most 120 s under the condition of DefaultCapExact |
| Dispatcher.World.Call | internal/dispatch/dispatcher.go:115-306 | what one API call of the dispatch means: others do what they can of what they were to do, then the protocol's step for the call's stage is taken with the scripted reply |
| Dispatcher.Locked | internal/dispatch/dispatcher.go:138-160 | second check, then the lease, building and its release: returns with the lease released exactly if it was won, then the mutex, its result the protocol's |
| Dispatcher.Build | internal/dispatch/dispatcher.go:162-191 | from the third check to the release of the lease: a duplicate or a failed mint ends it with nothing to undo, a later failure with what that stage needs; its waits are those of its stages |
| Dispatcher.BuildObjects | internal/dispatch/dispatcher.go:193-216 | fails exactly if it gives up a stage; a failed Secret is then compensated by deregistering the runner and nothing else |
| Dispatcher.BuildJob | internal/dispatch/dispatcher.go:244-260 | fails exactly if it gives up a stage; a failed Job is then compensated by dropping the Secret, then the runner |
| Dispatcher.LinkSecret | internal/dispatch/dispatcher.go:266-286 | a failed owner reference is compensated by dropping the Secret alone, success by nothing |
| Dispatcher.TryAcquire | internal/dispatch/lock.go:56-99 | acquired, not acquired and failed are the protocol's outcomes of reading, judging and writing the lease, whatever changes it in between |
| Dispatcher.IsDuplicate | internal/dispatch/dispatcher.go:288-296 | a Job or an error ends the call, with nil or the error, at each of the three places; otherwise it goes on |
| Dispatcher.WithRetry | internal/dispatch/backoff.go:83-112 | at most max(1, max) attempts with an uncancelled wait between two of them, or a last wait that is cancelled; success takes a good reply; the i-th wait is the delay k + i jittered by that turn's random number, where k counts the key's earlier failures, or the longer Retry-After, which only GitHub's errors carry; success clears the key, failure leaves it where it got to, other keys are untouched |
| Waits.StageCap | internal/dispatch/backoff.go:22-112 | the two default waits of a stage stay within 30 s, whatever the random numbers, if and only if the key has no failure left over and, in the stage that asks GitHub, the two Retry-Afters are at most 12 s and 18 s |
| Waits.WaitBoundExact | internal/dispatch/backoff.go:75-112 | for any configuration, attempts, left-over failures, Retry-Afters and bound: the waits of a dispatch stay within the bound, whatever the replies, random numbers and cancellations, if and only if a worst case computed from those does |
| Waits.PossibleRuns | internal/dispatch/backoff.go:60-112 | for every sequence of waits in order for its stages there is one script of replies and random numbers, with the same Retry-Afters, under which the stages have exactly these |
| Waits.WorstOfThree | internal/dispatch/backoff.go:83-112 | with three attempts the worst case is that every stage needs all of them, and only the first can be asked to wait longer |
| Waits.DefaultCapExact | internal/dispatch/dispatcher.go:173-278 | the waits of the four stages always stay within 120 s, the default time to live of the lease, if and only if no key has a failure left over, the first mint error asks for at most 12 s and the second for at most 18 s |
| Waits.CapBroken | internal/dispatch/backoff.go:75-112 | otherwise there are replies and random numbers, with the same Retry-Afters, under which they exceed it |
| Backoff.WaitReached | internal/dispatch/backoff.go:60-109 | every wait in order after one failure comes about for some random number |
| Dispatcher.StagesApart | internal/dispatch/dispatcher.go:173-274 | the four stages use four different keys, so no stage uses up another one's short delays |
| Dispatcher.FindLock | internal/dispatch/jobmutex.go:14-21 | finding the mutex leads to waiting for it, nothing else |
| JobMutex.JobMutexRegistry.Find | internal/dispatch/jobmutex.go:14-21 | is the protocol's lookup on the maps the registry represents: an entry, once there, is never replaced; a new one is a fresh, free mutex |
| JobMutex.JobMutexRegistry.Lock | internal/dispatch/jobmutex.go:22-22 | gets on exactly when the protocol lets the call act, and then is the protocol's step of taking the mutex |
| JobMutex.JobMutexRegistry.Unlock | internal/dispatch/jobmutex.go:23-23 | is the protocol's release; so over any sequence of these operations Exclusion.MutexExclusion holds of the registry |
| JobMutex.OthersKeep | internal/dispatch/jobmutex.go:14-24 | what other processes and other steps do leaves what the registry represents as it is |
| JobMutex.AlwaysNumbered | internal/dispatch/jobmutex.go:16-20 | in every run different jobs and processes have different mutexes, and a new one is none of those in use |
| Backoff.Backoff.DelayFor | internal/dispatch/backoff.go:46-54 | the delay is within a fifth of the key's next base delay, which it moves on, and no other key changes |
| Backoff.Backoff.Reset | internal/dispatch/backoff.go:56-58 | the key starts again at the initial delay, no other key changes |
| Backoff.Jitter | internal/dispatch/backoff.go:60-73 | never more than a fifth off, for any random number |
| Backoff.JitterReachesAll | internal/dispatch/backoff.go:60-73 | and every delay in that range can come out |
| Backoff.BaseBounds | internal/dispatch/backoff.go:46-54 | the k-th delay is min(initial * 1.5^k, max) up to what truncation takes, which is less than 1.5^k nanoseconds |
| Backoff.DefaultDelays | internal/dispatch/backoff.go:22-54 | with the defaults it is exactly min(10 s * 1.5^k, 5 min) |
| JobCleaner.CleanupByJobID | internal/cleanup/job_cleaner.go:53-102 | deletes the id's Jobs in listing order up to the first that cannot be deleted; nothing while locked or for an empty id; the error says precisely when something was left |
| JobCleaner.GroupGone | internal/cleanup/job_cleaner.go:70-102 | a complete deletion leaves exactly the Jobs of other ids |
| StaleSweep.StaleJobSweep.SweepOnce | internal/reconciler/stale_job_sweep.go:99-126 | over a snapshot, while whole groups go: a Job that is gone has the id of a listed one found stale, whatever fails; if nothing fails, exactly the groups of those are gone, and no Job with an id that is older than the maximal runtime is left unless it was locked |
| StaleSweep.ListedExact | internal/reconciler/stale_job_sweep.go:99-114 | a pass looks at the Jobs with the label, each as often as the cluster has it, and at no others |
| StaleSweep.ListedInOrder | internal/reconciler/stale_job_sweep.go:106-115 | in the order of the cluster |
| StaleSweep.StaleExact | internal/reconciler/stale_job_sweep.go:128-241 | a Job is found stale exactly if it has an id not known to be locked, and is too old, or its pods are known and bad, or are fine while GitHub says it is long done |
| StaleSweep.PodProblemExact | internal/reconciler/stale_job_sweep.go:177-207 | which pods are bad: over, with a runner to be cleaned up, or pending or waiting in vain after so long; and which of these is reported |
| StaleSweep.FirstProblemExact | internal/reconciler/stale_job_sweep.go:177-207 | the first bad pod decides |
| StaleSweep.CacheExact | internal/reconciler/stale_job_sweep.go:209-257 | GitHub is asked, and its answer cached, exactly when the verdict depends on it and no fresh answer is cached |
| StaleSweep.AnswerIsKept | internal/reconciler/stale_job_sweep.go:209-257 | and until the time to live is over the Job is judged by that answer |
| StaleSweep.StaleJobSweep.EvaluateJob | internal/reconciler/stale_job_sweep.go:128-165 | the verdict is the pure one given the status the cache or GitHub answers, and only an answer asked for enters the cache |
| StaleSweep.StaleJobSweep.PodReason | internal/reconciler/stale_job_sweep.go:177-207 | the problem of the first pod that has one, by terminal phase, runner state and, once old enough, pending phase and stuck containers |
| StaleSweep.StaleJobSweep.GithubReason | internal/reconciler/stale_job_sweep.go:209-257 | goes by an unexpired entry, otherwise asks and stores the answer under the job id |
| StaleSweep.VerdictStays | internal/reconciler/stale_job_sweep.go:128-207 | with pods and GitHub fixed a stale Job stays stale as time passes; an unlocked Job past the maximal runtime always is |
| StaleSweep.CacheSound | internal/reconciler/stale_job_sweep.go:209-257 | if completed is absorbing and requests succeed, what the cached sweep flags, an uncached one would flag at that instant for the same reason |
| StaleSweep.CacheComplete | internal/reconciler/stale_job_sweep.go:209-257 | and what an uncached sweep flags at time t, any cached sweep flags from t plus the cache's time to live and the latency of a request on |
| StaleSweep.CacheBoundExact | internal/reconciler/stale_job_sweep.go:209-257 | for any time to live and latency, a delay is long enough for that if and only if it is at least both together: an answer that was true when asked and is stored as late as it can be misleads until then |
| StaleSweep.PassRefinesUncached | internal/reconciler/stale_job_sweep.go:99-257 | soundness and this bound, for every Job of a whole pass whose cache fills up as it goes |
| StaleSweep.PassKeepsCache | internal/reconciler/stale_job_sweep.go:220-257 | a pass leaves a cache of true, dated answers to the next one |
| StaleSweep.SteadyPass | internal/reconciler/stale_job_sweep.go:99-257 | while GitHub's answers do not change, a cached pass is the uncached pass |
| OrphanSweep.OrphanRunnerSweep.SweepOnce | internal/reconciler/orphan_runners.go:74-91 | removes exactly the orphans of the configured repositories that could be listed and whose deletion did not fail |
| OrphanSweep.OrphanRunnerSweep.EvaluateRunner | internal/reconciler/orphan_runners.go:93-127 | deletes the runner exactly if it is old, not known to be locked, known to have no Job and named after a job id |
| OrphanSweep.ReapedExact | internal/reconciler/orphan_runners.go:74-160 | whatever fails, a pass removes exactly the listed runners of the configured repositories that are named "ghs-" run "-" job, stamped and old enough, whose job is not known to be locked, has no Job and could be looked up, and whose deletion works |
| OrphanSweep.LeftoversAreReaped | internal/reconciler/orphan_runners.go:93-160 | so it removes the runner a dispatch left behind if and only if all of that holds of it |
| OrphanSweep.SameDecision | internal/reconciler/orphan_runners.go:93-127 | the pass decides as the interleaved sweep of the protocol does, failing checks included |
| Repos.SplitRepoExact | internal/reconciler/reconciler.go:200-206 | accepts exactly owner/name with an owner free of slashes, and takes it apart again |
| Reconciler.Reconciler.ReconcileRepo | internal/reconciler/reconciler.go:115-175 | the nested loops with their breaks and skips are one fold over all listed jobs, extending the history by this turn |
| Reconciler.Reconciler.ReconcileOnce | internal/reconciler/reconciler.go:101-113 | a cycle is the turns of the well-formed repositories, in order |
| Reconciler.AcceptedInOrder | internal/reconciler/reconciler.go:101-113 | the accepted turns of two lists of entries are those of the one, then those of the other |
| Reconciler.AcceptedOne | internal/reconciler/reconciler.go:101-113 | and a single turn is accepted exactly if its entry is an owner without slashes and a name, joined by a slash |
| Reconciler.TurnExact | internal/reconciler/reconciler.go:115-175 | every check a turn adds is that of a queued job listed in it, created at least the threshold before, and Dispatch is called exactly if it is known to have no Job; unless the quota is used up all such jobs are checked, but for those checked within the cooldown and those that cannot be looked up |
| Reconciler.Quota | internal/reconciler/reconciler.go:121-172 | at most MaxJobsPerCycle successful dispatches in a repository's turn |
| Reconciler.MarksAreSpaced | internal/reconciler/reconciler.go:177-188 | over all runs any two checks of an id are marked at least the cooldown apart |
| Reconciler.CallsAreSpaced | internal/reconciler/reconciler.go:121-188 | over all runs two Dispatch calls for one id are apart by at least what is left of the cooldown after the first call's lag behind its mark, the time its turn began |
| Reconciler.LateCallComesAgain | internal/reconciler/reconciler.go:121-188 | for any lag there is a history with two calls exactly that close together |
| Reconciler.CallSpacingExact | internal/reconciler/reconciler.go:121-188 | so after a call with a given lag the next one is guaranteed to be d later if and only if d is at most what the lag leaves of the cooldown, and the whole cooldown if and only if there was no lag |
| Reconciler.FailuresAreFree | internal/reconciler/reconciler.go:132-171 | the quota does not limit the lag: failing calls do not count, so every due job of a turn is called for |
| Reconciler.EveryJobGetsItsTurn | internal/reconciler/reconciler.go:101-188 | in any history of turns within one cooldown, of whichever repositories and whatever fails in them: if a job is listed as due, and the Job listing for it answered, in K of them, which list n due jobs in all, and K * MaxJobsPerCycle >= n, then it was tried or found to have a Job in the window or within a cooldown before it |
| Reconciler.TurnsNeeded | internal/reconciler/reconciler.go:115-188 | for any K and n > 0 this holds in all such histories if and only if K * MaxJobsPerCycle >= n |
| PodWatch.PodWatcher.ProcessPod | internal/informer/podwatch.go:57-124 | what was emitted, with its attributes, is what the history of notifications calls for |
| PodWatch.PodWatcher.EmitOnce | internal/informer/podwatch.go:113-124 | emits exactly if the pod has not had the event, and remembers it |
| PodWatch.FiresExact | internal/informer/podwatch.go:57-217 | when a notification calls for an event, in terms of the pod, of what it was before, and of whether it is delivered as new |
| PodWatch.AttrsExact | internal/informer/podwatch.go:57-133 | what each event carries of the pod: its name, phase, run and job labels, and the exit code |
| PodWatch.ExitCodeExact | internal/informer/podwatch.go:207-217 | which is that of the first terminated container, or a guess from the phase |
| PodWatch.AtMostOnce | internal/informer/podwatch.go:113-124 | whatever the notifications, no event is emitted twice for a pod |
| PodWatch.EdgeIffLevel | internal/informer/podwatch.go:57-87 | in any interleaving of coherent streams a state ever shows up exactly if some notification shows it newly |
| PodWatch.EndsIffShown | internal/informer/podwatch.go:57-87 | so scheduled and completed are emitted exactly for the pods ever seen so |
| PodWatch.RunningIffShown | internal/informer/podwatch.go:66-74 | running exactly for the pods ever seen running or first delivered when already over |
| PodWatch.SidecarIffShown | internal/informer/podwatch.go:75-79 | the sidecar failure exactly for the pods ever seen with it |
| PodWatch.RunnerExitIffShown | internal/informer/podwatch.go:89-111 | the runner exit exactly for the labelled pods ever seen in need of cleanup, if a callback is set |
| PodWatch.OrderExact | internal/informer/podwatch.go:57-124 | for any notifications: running is emitted after completed if and only if one calls for completed before any called for running, and a later one calls for running |
| PodWatch.CoherentOrderExact | internal/informer/podwatch.go:57-87 | in coherent histories: if and only if the pod is seen over before it ever started (was running, or was delivered as new when over), and starts later |
| PodWatch.SteadyOrderExact | internal/informer/podwatch.go:57-87 | if pods moreover stay over until delivered as new: if and only if the pod, over without having started, is delivered as new and starts then or later |
| PodWatch.RunningNeverFollowsCompleted | internal/informer/podwatch.go:57-87 | so never if no pod is delivered as new twice |
| PodWatch.SecondAddBreaksOrder | internal/informer/podwatch.go:66-74 | but for every pod that ends without being seen running and is delivered as new again |
| PodWatch.ShouldReportCacheSidecarFailure | internal/informer/podwatch.go:166-189 | the last runner status is running and some sidecar status is bad, in a pod with a sidecar |
| PodWatch.ReadExitCode | internal/informer/podwatch.go:207-217 | the text of the first terminated container's exit code, or the phase's guess |
| Pods.FirstNamed | internal/k8sjob/podstatus.go:8-18 | finds the first container status of the name, if there is one |
| Pods.CleanupExact | internal/k8sjob/podstatus.go:8-41 | a pod is to be cleaned up exactly if the first status of its runner container is terminated or waits for one of five reasons, and the two are told apart |
| Decimal.Itoa | internal/informer/podwatch.go:219-239 | stays inside its 20 bytes and prints the decimal text, except of the least 64-bit integer |
| Decimal.WriteDigits | internal/informer/podwatch.go:227-238 | the digits fill the end of the buffer and leave room for a sign |
| Decimal.ItoaReadsBack | internal/informer/podwatch.go:219-239 | reading the text back gives the value if and only if it is not that integer |
| Decimal.ParseIntExact | internal/labelquery/parser.go:66-70 | numbers are read from digits, or digits behind one sign, and nothing else |
| Names.ParseRunnerName | internal/reconciler/orphan_runners.go:146-160 | parsing a runner's name recovers the job id |
| Names.ParseExact | internal/reconciler/orphan_runners.go:146-160 | a name parses to a job exactly if it is "ghs-", a run and that job joined by a dash, both non-empty, and no dash in the job |
| Names.NamesInjective | internal/dispatch/dispatcher.go:168-170 | dispatches share a runner, Job or Secret name only if they are for the same run and job |
| Names.PrintedIds | internal/reconciler/reconciler.go:208-210 | printed ids make such names, different ids different ones |
| LabelQuery.Parse | internal/labelquery/parser.go:44-102 | the loop over labels, fields overwritten as they come, means: the first bad label decides the error, otherwise the last label of each key the spec |
| LabelQuery.AcceptedExact | internal/labelquery/parser.go:44-102 | labels parse if and only if each is a key and an allowed value joined by the first equals sign and one begins with "runs-on=" |
| LabelQuery.TextsExact | internal/labelquery/parser.go:44-102 | each text field is what the last label of its key says, or else its default |
| LabelQuery.CpuAndCacheExact | internal/labelquery/parser.go:66-113 | so is the number of processors, read as a positive 64-bit decimal; the cache is on exactly if the last label for it is one of three texts |
| LabelQuery.RawExact | internal/labelquery/parser.go:90-95 | raw is what the last labels of all other keys say |
| LabelQuery.ErrorExact | internal/labelquery/parser.go:57-89 | what is said of a label with a value that is not allowed |
| LabelQuery.ManagedExact | internal/labelquery/parser.go:32-40 | labels are managed exactly if one begins with "runs-on=" |
| LabelQuery.OrderIndependent | internal/labelquery/parser.go:44-102 | with distinct keys neither success nor the spec depends on the order |
| LabelQuery.LastLabelWins | internal/labelquery/parser.go:51-95 | with repeated keys a successful result depends only on the last label of each |
| LabelQuery.ParsedIsManaged | internal/labelquery/parser.go:32-40 | success implies Managed and a run id |
| CacheStore.Backend.FindKeys | cache-sidecar/internal/s3backend/s3backend.go:47-84 | whatever the map order: the strictly sorted list of exactly the stored keys that are a present candidate or extend an absent non-empty one |
| CacheStore.SelectsExact | cache-sidecar/internal/s3backend/s3backend.go:60-82 | an empty candidate stands for nothing, a stored one for itself alone, any other for all that begin with it |
| CacheStore.Backend.KeySet | cache-sidecar/internal/s3backend/s3backend.go:52-60 | the short keys are exactly what follows the version's prefix in stored object keys |
| CacheStore.Memory.List | cache-sidecar/internal/s3backend/s3backend.go:122-133 | the stored keys with the prefix, strictly sorted, whatever the map order |
| CacheStore.ExactMatchFirst | cache-sidecar/internal/s3backend/s3backend.go:46-84 | the exact match comes first if and only if no restore key contributes a lesser key |
| CacheStore.FoundIsFetchable | cache-sidecar/internal/s3backend/s3backend.go:36-84 | in a store filled through Put, every key found in a plain repository and version can be fetched by that key |
| CacheStore.StoredIsFetchable | cache-sidecar/internal/s3backend/s3backend.go:31-44 | because whatever was put, what lies behind a plain prefix is a plain path |
| CacheStore.PutIsFound | cache-sidecar/internal/s3backend/s3backend.go:36-84 | a plain key that was put is found under its own name |
| ObjectKeys.PlainObjectKey | cache-sidecar/internal/s3backend/s3backend.go:31-33 | the object key of plain parts is those parts, joined by slashes |
| ObjectKeys.ObjectKeyInjective | cache-sidecar/internal/s3backend/s3backend.go:31-33 | different plain keys or versions have different object keys |
| ObjectKeys.CleanTail | cache-sidecar/internal/s3backend/s3backend.go:31-33 | a cleaned path behind a plain prefix has no empty, "." or ".." element left |
| ObjectKeys.CleanKeepsPlace | cache-sidecar/internal/s3backend/s3backend.go:31-33 | from any directory a cleaned path leads to where the path leads to, and is rooted exactly if that is |
| ObjectKeys.NoPrefix | cache-sidecar/internal/s3backend/s3backend.go:31-33 | without a repository the object key is the version and the key |
| CacheHandler.Handler.CreateEntry | cache-sidecar/internal/cacheproto/handler.go:121-138 | the upload id was never given out before and stands for this key and version; its URL starts with the base there was, or else with scheme and host of the request |
| CacheHandler.Handler.HandleUpload | cache-sidecar/internal/cacheproto/handler.go:203-229 | what is put to the n-th upload URL is stored under the object key of the n-th entry's key and version; writes only the object its entry was created for; unknown ids and unreadable bodies write nothing |
| CacheHandler.UploadPath | cache-sidecar/internal/cacheproto/handler.go:261-264 | a server sees the upload URL of an id as the path by which HandleUpload finds the entry |
| CacheHandler.UploadComesBack | cache-sidecar/internal/cacheproto/handler.go:146-251 | what was put there is what finalizing sees, with its own size passing, and what the blob URL of a slash-free key serves |
| CacheHandler.BaseExact | cache-sidecar/internal/cacheproto/handler.go:253-259 | slashes at the end of the base are cut off, and none at all stands for the local host |
| CacheHandler.BaseForExact | cache-sidecar/internal/cacheproto/handler.go:266-279 | the base is kept once there is one; until then it is made of scheme and host of the request, or the local host |
| CacheHandler.Handler.FinalizeUpload | cache-sidecar/internal/cacheproto/handler.go:146-168 | done exactly if bytes were uploaded under the key and version whose number passes for the claimed one |
| CacheHandler.ParseSizeBytes | cache-sidecar/internal/cacheproto/handler.go:287-300 | the decimal value wrapped around to 64 bits, or an error for anything but digits |
| CacheHandler.SizeCheckExact | cache-sidecar/internal/cacheproto/handler.go:163-166 | the check passes exactly the claimed size, for all sizes, if and only if the claim fits a signed 64-bit number |
| CacheHandler.Handler.GetDownloadURL | cache-sidecar/internal/cacheproto/handler.go:95-114 | a miss means no key is wanted; a hit is the least wanted key, with its blob URL at the base there was, or else scheme and host of the request |
| CacheHandler.Handler.HandleBlobDownload | cache-sidecar/internal/cacheproto/handler.go:231-251 | serves the object of the key before the first slash and the version behind it |
| CacheHandler.PathExact | cache-sidecar/internal/cacheproto/handler.go:203-237 | the path of a request ends before the first question mark or hash |
| CacheHandler.BlobPath | cache-sidecar/internal/cacheproto/handler.go:253-259 | a server decodes the blob URL of any key and version to the path that spells them out |
| CacheHandler.BlobTarget | cache-sidecar/internal/cacheproto/handler.go:231-259 | and takes it apart into that key and version if and only if the key holds no slash |
| CacheHandler.BlobServesLastUpload | cache-sidecar/internal/cacheproto/handler.go:203-259 | over any sequence of steps the blob URL of a slash-free key serves the bytes last uploaded for it |
| CacheHandler.HitIsServed | cache-sidecar/internal/cacheproto/handler.go:95-114 | so the download URL of a slash-free hit in a plain repository and version serves bytes |
| PercentEncoding.EscapeUndone | cache-sidecar/internal/cacheproto/handler.go:253-259 | decoding undoes the encoding of a segment, whatever follows it |
| PercentEncoding.EscapedIsSafe | cache-sidecar/internal/cacheproto/handler.go:253-259 | an encoded segment holds nothing that ends a segment, a path or a query |
| PercentEncoding.KeptExact | cache-sidecar/internal/cacheproto/handler.go:253-259 | which bytes a segment keeps unencoded |
| PercentEncoding.HexExact | cache-sidecar/internal/cacheproto/handler.go:253-259 | which characters a decoder takes for hexadecimal digits, and what they are worth |
| Pagination.ListJobs | internal/store/sqlite/sqlite.go:187-244 | the first rows of the ordered selection, up to the limit, and a cursor exactly if there are more |
| Pagination.PageExact | internal/store/sqlite/sqlite.go:187-244 | a page holds rows of the table with the asked repository and status behind the cursor, in decreasing order, at most 50 or the limit if that is from 1 to 200; all of them, and no cursor, unless there are more |
| Pagination.AllIsTheMatchingRows | internal/store/sqlite/sqlite.go:193-218 | for any table the selection without a cursor is the matching rows, each as often as stored, in decreasing order of stored time |
| Pagination.BehindCursor | internal/store/sqlite/sqlite.go:203-240 | for any table the selection behind a row's cursor is exactly the rows after it that do not tie with it |
| Pagination.FollowingExact | internal/store/sqlite/sqlite.go:187-244 | for any table following NextCursor ends, and visits all matching rows, each once and in decreasing stored order, if and only if no two rows with equal times lie on either side of a page boundary; then it takes the number of rows over the limit, rounded up, and one page for none |
| Pagination.FollowingVisitsAll | internal/store/sqlite/sqlite.go:187-244 | so for tables without repeated rows and with pairwise distinct times every matching row is visited exactly once |
| Pagination.PageCountIsCeiling | internal/store/sqlite/sqlite.go:238-242 | that number of pages is the ceiling |
| Timestamps.SecondsInOrder | internal/store/sqlite/sqlite.go:398-403 | texts of different seconds are in the order of time |
| Timestamps.SecondInOrder | internal/store/sqlite/sqlite.go:398-403 | texts of the same second are if and only if the fraction of the earlier one is neither empty nor a beginning of the later one's |
| Percentile.Percentile | internal/store/percentile.go:7-30 | sorts in place, never indexes out of range, and the result depends only on the multiset of values and p |
| Percentile.Bounds | internal/store/percentile.go:15-29 | lies between the least and the greatest value |
| Percentile.Monotone | internal/store/percentile.go:15-29 | does not fall as p grows |
| Percentile.OrderStatistic | internal/store/percentile.go:22-29 | is the k-th smallest value at p = k / (n - 1) |
| Percentile.LinearBetween | internal/store/percentile.go:22-29 | and linear in between: at (k + f) / (n - 1) the fraction f of the way from the k-th smallest value to the next |
| Sorting.Sort | internal/store/percentile.go:15-15 | sorts by any total order, keeping the multiset |
| Sorting.SortedUnique | internal/store/percentile.go:15-15 | and there is only one way to do that |

## Left out

- Signatures, HTTP, JSON and XML, GitHub's REST API, token minting: network clients over libraries; their answers are parameters.
- API calls that are carried out but reported as failed.
- Job, pod and container specifications (internal/k8sjob/builder.go): plumbing over library types.
- Webhook intake, tracing, metrics, the console and its API, leader election and informer machinery.
- UpsertQueued, the Mark operations, Stats and Prune of the store: single-row updates whose states a re-dispatch resets, so no invariant over runs survives them.
- Protocol: the retry bound is replaced by giving up at any failed attempt; Dispatcher has the bound itself. Job deletions by the cleaner, the TTL controller or an operator are one kind of step that may happen at any time.
- Protocol: one GitHub repository and one namespace; several repositories only differ in the names of runners.
- Dispatcher.Dispatch: a call that still waits for the mutex returns as Blocked; that it ever gets the mutex is not stated, because a crash or a call that never ends may keep it.
- Dispatcher.World.Call: which API call is made is given by the call's stage in the protocol, so the refinement is about control flow, results, retries and waits; that each stage's effect is the right one is what Steps states of the protocol.
- Dispatcher.World.Others: other calls move only at this call's API calls and waits, which are the only moments it looks at anything they share.
- JobCleaner.CleanupByJobID: between its own calls nobody else changes the Jobs; a Job that vanished in between counts as one whose deletion fails.
- StaleSweep.StaleJobSweep.SweepOnce: likewise nobody else changes the Jobs during a pass; locks, pods, GitHub and faults may differ from Job to Job.
- OrphanSweep.OrphanRunnerSweep.SweepOnce: answers are fixed for the pass; the interleaved sweep is in OrphanSafety.
- Reconciler.Reconciler.ReconcileRepo: when each call of a turn is made, and what GitHub, the Job listing and Dispatch answer for each listed job is given.
- Percentile.Percentile: reals instead of floating point, so the branch for a rank rounded up to the last index is never taken.
- Pagination.ListJobs: the SELECT is a function of the table, which takes rows with equal times in one fixed order where SQLite leaves it open; times are their stored texts, so that parsing one and formatting it again gives the same text is assumed.
- Timestamps.SecondsInOrder: the part of the text before the fraction is any text of fixed length, as it is for years 0 to 9999.
- CacheHandler.Handler.GetDownloadURL: keys are byte texts; the v1 REST lookup only differs in how the request is read.
- The S3 object store behind the same interface (cache-sidecar/internal/s3backend/s3store.go): the model has the in-memory one.
