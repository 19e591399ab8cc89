/** What the records of a run say about each other, in every run: which stages of a call go with
    a minted runner and a created Job, and which call a stored object belongs to. */
module Bookkeeping {
  import opened Options
  import opened Names
  import opened Protocol

  predicate Finished(pc: Pc) { pc.ReleaseLease? || pc.ReleaseMutex? || pc.Returned? }

  /** Which stages have a runner and a Job. */
  predicate StageOk(nextRunner: nat, now: nat, c: Call) {
    && (c.runner.Some? ==> c.runner.value < nextRunner && c.mintedAt <= now)
    && (c.uid.Some? ==> c.runner.Some?)
    && (c.pc.CreateSecret? || c.pc.CreateJob? || c.pc.DropSecretNoJob? || c.pc.DeregisterRunner? ==>
          c.runner.Some? && c.uid.None?)
    && (c.pc.SetOwner? || c.pc.DropSecretNoOwner? ==> c.uid.Some?)
    && (c.pc.DropSecretNoOwner? ==> !c.ok)
    && ((!Building(c.pc) && !Finished(c.pc) && !c.pc.Crashed?) || c.pc.ThirdCheck? || c.pc.MintRunner? ==>
          c.runner.None? && c.uid.None?)
  }

  /** A dispatched Job belongs to the call that created it. */
  predicate JobOk(calls: map<nat, Call>, n: string, j: Job) {
    j.maker.Some? ==>
      j.maker.value in calls
      && n == JobName(calls[j.maker.value].key)
      && j.job == calls[j.maker.value].key.job
      && calls[j.maker.value].uid == Some(j.uid)
  }

  /** A dispatched runner belongs to the call that minted it. */
  predicate RunnerOk(calls: map<nat, Call>, id: nat, r: Runner) {
    r.maker.Some? ==>
      r.maker.value in calls
      && calls[r.maker.value].runner == Some(id)
      && r.name == RunnerName(calls[r.maker.value].key)
      && (r.created.Some? ==> r.created.value == calls[r.maker.value].mintedAt)
  }

  ghost predicate Booked(s: State) {
    && (forall p :: p in s.calls ==> StageOk(s.nextRunner, s.now, s.calls[p]))
    && (forall n :: n in s.jobs ==> JobOk(s.calls, n, s.jobs[n]))
    && (forall id :: id in s.runners ==> RunnerOk(s.calls, id, s.runners[id]))
  }

  lemma StageSelf(s: State, c: Call, r: Reply)
    requires StageOk(s.nextRunner, s.now, c)
    ensures StageOk(if Mints(c, r) then s.nextRunner + 1 else s.nextRunner, s.now, CallAfter(s, c, r))
  {
  }

  /** A runner or Job once recorded in a call stays recorded. */
  lemma RecordsKept(s: State, c: Call, r: Reply)
    requires StageOk(s.nextRunner, s.now, c)
    ensures var k := CallAfter(s, c, r);
            && (c.runner.Some? ==> k.runner == c.runner && k.mintedAt == c.mintedAt && k.reported == c.reported)
            && (c.uid.Some? ==> k.uid == c.uid)
            && (c.runner.None? && k.runner.Some? ==> Mints(c, r) && k.runner == Some(s.nextRunner) && k.mintedAt == s.now)
            && (c.uid.None? && k.uid.Some? ==> MakesJob(s, c, r) && k.uid == Some(s.nextUid))
            && (Mints(c, r) ==> k.runner == Some(s.nextRunner) && k.mintedAt == s.now && c.runner.None?)
            && (MakesJob(s, c, r) ==> k.uid == Some(s.nextUid) && c.uid.None?)
  {
  }

  lemma BookedActStep(s: State, p: nat, r: Reply)
    requires Booked(s) && CanAct(s, p)
    ensures Booked(ActStep(s, p, r))
  {
    var c, t := s.calls[p], ActStep(s, p, r);
    StageSelf(s, c, r);
    RecordsKept(s, c, r);
    forall q | q in t.calls && q != p
      ensures StageOk(t.nextRunner, t.now, t.calls[q])
    {
      assert StageOk(s.nextRunner, s.now, s.calls[q]);
    }
    forall n | n in t.jobs
      ensures JobOk(t.calls, n, t.jobs[n])
    {
      assert n in s.jobs ==> JobOk(s.calls, n, s.jobs[n]);
    }
    forall id | id in t.runners
      ensures RunnerOk(t.calls, id, t.runners[id])
    {
      assert id in s.runners ==> RunnerOk(s.calls, id, s.runners[id]);
    }
  }

  lemma BookedQuiet(s: State, t: State)
    requires Booked(s) && Quiet(s, t)
    ensures Booked(t)
  {
    forall q | q in t.calls
      ensures StageOk(t.nextRunner, t.now, t.calls[q])
    {
      assert q in s.calls ==> StageOk(s.nextRunner, s.now, s.calls[q]);
    }
    forall n | n in t.jobs
      ensures JobOk(t.calls, n, t.jobs[n])
    {
      assert JobOk(s.calls, n, s.jobs[n]);
    }
    forall id | id in t.runners
      ensures RunnerOk(t.calls, id, t.runners[id])
    {
      assert RunnerOk(s.calls, id, s.runners[id]);
    }
  }

  lemma BookedStep(s: State, e: Event)
    requires Booked(s) && Enabled(s, e)
    ensures Booked(Next(s, e))
  {
    if e.Act? {
      BookedActStep(s, e.p, e.reply);
    } else {
      BookedQuiet(s, Next(s, e));
    }
  }

  lemma {:induction false} BooksHold(s: State, es: seq<Event>)
    requires Init(s) && Valid(s, es)
    ensures Booked(Exec(s, es))
  {
    if es != [] {
      BooksHold(s, Front(es));
      BookedStep(Exec(s, Front(es)), Last(es));
    }
  }
}
