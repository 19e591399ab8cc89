/** The orphan sweep against running dispatches: its lock check, Job check and delete are separate
    steps, interleaved with everything else, yet it never takes away a runner still in use. */
module OrphanSafety {
  import opened Options
  import opened Names
  import opened Protocol
  import opened Bookkeeping

  /** Every dispatch ends within the grace period of registering its runner. */
  ghost predicate Prompt(s: State) {
    forall p :: p in s.calls && s.calls[p].runner.Some? && InFlight(s.calls[p].pc) ==>
      s.now < s.calls[p].mintedAt + s.grace
  }

  ghost predicate NoLiveJob(s: State, p: nat) {
    forall n :: n in s.jobs ==> s.jobs[n].maker != Some(p)
  }

  /** A listing of runners, current or taken earlier: it names the minting call of every runner
      that a call minted. */
  ghost predicate Listing(calls: map<nat, Call>, nextRunner: nat, m: map<nat, Runner>) {
    && (forall id :: id in m ==> id < nextRunner && RunnerOk(calls, id, m[id]))
    && (forall p, id :: p in calls && id in m && calls[p].runner == Some(id) ==> m[id].maker == Some(p))
  }

  ghost predicate SweepOk(s: State, v: Sweep) {
    && v.passNow <= s.now
    && Listing(s.calls, s.nextRunner, v.listed)
    && (!v.stage.Idle? ==> v.stage.id in v.listed && OldEnough(v.listed[v.stage.id], v.passNow, s.grace))
    && (v.stage.Remove? ==>
          forall p :: v.listed[v.stage.id].maker == Some(p) && p in s.calls && IdKey(s.calls[p].key) ==> NoLiveJob(s, p))
  }

  ghost predicate SweepsOk(s: State) {
    && Listing(s.calls, s.nextRunner, s.runners)
    && (forall w :: w in s.sweeps ==> SweepOk(s, s.sweeps[w]))
  }

  /** The dispatch that minted a runner the sweep is looking at is over. */
  lemma MakerOver(s: State, v: Sweep, p: nat)
    requires Prompt(s) && SweepOk(s, v) && !v.stage.Idle? && v.listed[v.stage.id].maker == Some(p)
    ensures p in s.calls && s.calls[p].runner == Some(v.stage.id) && !InFlight(s.calls[p].pc)
  {
    assert RunnerOk(s.calls, v.stage.id, v.listed[v.stage.id]);
  }

  lemma ListingActStep(s: State, p: nat, r: Reply, m: map<nat, Runner>)
    requires Booked(s) && CanAct(s, p) && Listing(s.calls, s.nextRunner, m)
    ensures var t := ActStep(s, p, r); Listing(t.calls, t.nextRunner, m)
  {
    var t := ActStep(s, p, r);
    RecordsKept(s, s.calls[p], r);
    forall id | id in m
      ensures RunnerOk(t.calls, id, m[id])
    {
      assert RunnerOk(s.calls, id, m[id]);
    }
  }

  lemma RunnersActStep(s: State, p: nat, r: Reply)
    requires Booked(s) && CanAct(s, p) && Listing(s.calls, s.nextRunner, s.runners)
    ensures var t := ActStep(s, p, r); Listing(t.calls, t.nextRunner, t.runners)
  {
    var t := ActStep(s, p, r);
    BookedActStep(s, p, r);
    RecordsKept(s, s.calls[p], r);
    forall q | q in s.calls
      ensures StageOk(s.nextRunner, s.now, s.calls[q])
    {
    }
    forall id | id in t.runners
      ensures id < t.nextRunner && RunnerOk(t.calls, id, t.runners[id])
    {
    }
  }

  /** A Job the sweep has not seen does not appear behind its back: the call that could create it
      is over. */
  lemma SweepActStep(s: State, p: nat, r: Reply, v: Sweep)
    requires Booked(s) && Prompt(s) && CanAct(s, p) && SweepOk(s, v)
    ensures SweepOk(ActStep(s, p, r), v)
  {
    var t := ActStep(s, p, r);
    ListingActStep(s, p, r, v.listed);
    if v.stage.Remove? && v.listed[v.stage.id].maker.Some? {
      var q := v.listed[v.stage.id].maker.value;
      MakerOver(s, v, q);
      assert q != p;
      assert NoLiveJob(s, q) ==> NoLiveJob(t, q);
    }
  }

  lemma SweepQuiet(s: State, t: State, v: Sweep)
    requires Quiet(s, t) && SweepOk(s, v)
    ensures SweepOk(t, v)
  {
    forall id | id in v.listed
      ensures RunnerOk(t.calls, id, v.listed[id])
    {
      assert RunnerOk(s.calls, id, v.listed[id]);
    }
    forall p | NoLiveJob(s, p)
      ensures NoLiveJob(t, p)
    {
    }
  }

  lemma RunnersQuiet(s: State, t: State)
    requires Quiet(s, t) && Listing(s.calls, s.nextRunner, s.runners)
    ensures Listing(t.calls, t.nextRunner, t.runners)
  {
    forall id | id in t.runners
      ensures RunnerOk(t.calls, id, t.runners[id])
    {
      assert RunnerOk(s.calls, id, s.runners[id]);
    }
  }

  /** With no Job for the id its name parses to, the call that minted the runner has none. */
  lemma NoJobSeen(s: State, v: Sweep, p: nat)
    requires Booked(s) && SweepOk(s, v) && !v.stage.Idle? && v.listed[v.stage.id].maker == Some(p)
    requires p in s.calls && IdKey(s.calls[p].key)
    requires var job := ParseJobIDFromRunnerName(v.listed[v.stage.id].name);
             job.Some? && !HasJob(s, job.value)
    ensures NoLiveJob(s, p)
  {
    assert RunnerOk(s.calls, v.stage.id, v.listed[v.stage.id]);
    ParseRunnerName(s.calls[p].key);
    assert forall n :: n in s.jobs ==> JobOk(s.calls, n, s.jobs[n]);
  }

  /** The sweep's own step: only after seeing no Job for the id does it go on to remove. */
  lemma SweepSelf(s: State, v: Sweep, job: string, good: bool)
    requires Booked(s) && SweepOk(s, v) && !v.stage.Idle?
    requires ParseJobIDFromRunnerName(v.listed[v.stage.id].name) == Some(job)
    ensures SweepOk(s, v.(stage := StageAfter(s, v, job, good)))
  {
    if v.stage.CheckJobs? && !HasJob(s, job) {
      forall p | v.listed[v.stage.id].maker == Some(p) && p in s.calls && IdKey(s.calls[p].key)
        ensures NoLiveJob(s, p)
      {
        NoJobSeen(s, v, p);
      }
    }
  }

  lemma SweepsStep(s: State, e: Event)
    requires Booked(s) && Prompt(s) && SweepsOk(s) && Enabled(s, e)
    ensures SweepsOk(Next(s, e))
  {
    if e.Act? {
      RunnersActStep(s, e.p, e.reply);
      forall w | w in s.sweeps
        ensures SweepOk(ActStep(s, e.p, e.reply), s.sweeps[w])
      {
        SweepActStep(s, e.p, e.reply, s.sweeps[w]);
      }
    } else {
      var t := Next(s, e);
      RunnersQuiet(s, t);
      forall w | w in t.sweeps
        ensures SweepOk(t, t.sweeps[w])
      {
        if w in s.sweeps && t.sweeps[w] == s.sweeps[w] {
          SweepQuiet(s, t, s.sweeps[w]);
        } else if e.SweepAct? {
          var v := s.sweeps[w];
          SweepSelf(s, v, ParseJobIDFromRunnerName(v.listed[v.stage.id].name).value, e.good);
          SweepQuiet(s, t, t.sweeps[w]);
        }
      }
    }
  }

  lemma {:induction false} SweepsHold(s: State, es: seq<Event>)
    requires Init(s) && Valid(s, es) && Always(s, es, Prompt)
    ensures SweepsOk(Exec(s, es))
  {
    if es != [] {
      SweepsHold(s, Front(es));
      BooksHold(s, Front(es));
      SweepsStep(Exec(s, Front(es)), Last(es));
    }
  }

  /** A call that is over stays over and creates no Job, whatever happens next. */
  lemma {:induction false} OverForGood(s: State, es: seq<Event>, more: seq<Event>, p: nat)
    requires p in Exec(s, es).calls && !InFlight(Exec(s, es).calls[p].pc) && NoLiveJob(Exec(s, es), p)
    ensures p in Exec(s, es + more).calls && !InFlight(Exec(s, es + more).calls[p].pc) && NoLiveJob(Exec(s, es + more), p)
  {
    if more == [] {
      assert es + more == es;
    } else {
      assert Front(es + more) == es + Front(more);
      OverForGood(s, es, Front(more), p);
    }
  }

  /** If every dispatch ends within the grace period of registering its runner, then whenever the
      sweep deletes a runner, the dispatch that minted it has no live Job and never will. */
  lemma SweepSparesUsedRunners(s: State, es: seq<Event>, w: nat, p: nat, more: seq<Event>)
    requires Init(s) && Valid(s, es) && Always(s, es, Prompt)
    requires w in Exec(s, es).sweeps && Exec(s, es).sweeps[w].stage.Remove?
    requires p in Exec(s, es).calls && Exec(s, es).calls[p].runner == Some(Exec(s, es).sweeps[w].stage.id)
    requires IdKey(Exec(s, es).calls[p].key)
    ensures !InFlight(Exec(s, es).calls[p].pc)
    ensures NoLiveJob(Exec(s, es + more), p)
  {
    SweepsHold(s, es);
    var t := Exec(s, es);
    MakerOver(t, t.sweeps[w], p);
    OverForGood(s, es, more, p);
  }
}
