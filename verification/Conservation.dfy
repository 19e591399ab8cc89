/** Nothing is left behind: when all dispatches have returned, the garbage collector has run, the
    compensating deletes succeeded and nothing crashed. */
module Conservation {
  import opened Options
  import opened Names
  import opened Protocol
  import opened SecretGate
  import opened Bookkeeping

  /** No crash, and no compensating delete fails. */
  predicate Compensates(c: Call, r: Reply) {
    c.pc.DropSecretNoJob? || c.pc.DropSecretNoOwner? || c.pc.DeregisterRunner? ==> r.good
  }

  predicate Smooth(s: State, e: Event) {
    && !e.Crash?
    && (e.Act? && e.p in s.calls ==> Compensates(s.calls[e.p], e.reply))
  }

  /** A Secret without an owner is in use by the call that created it. */
  predicate SecretInUse(calls: map<nat, Call>, n: string, x: Secret) {
    x.owner.None? ==>
      x.maker.Some? && x.maker.value in calls
      && OwnsSecret(calls[x.maker.value].pc) && SecretName(calls[x.maker.value].key) == n
  }

  /** The Secret of a Job whose dispatch succeeded: its runner's config, owned by that Job. */
  predicate JobHasSecret(secrets: map<string, Secret>, p: nat, c: Call, j: Job) {
    Finished(c.pc) && c.ok ==>
      c.runner.Some? && SecretName(c.key) in secrets
      && secrets[SecretName(c.key)] == Secret(c.runner.value, Some(j.uid), Some(p))
  }

  /** A dispatch that is done and created no Job has deregistered its runner. */
  predicate RunnerGone(runners: map<nat, Runner>, c: Call) {
    Finished(c.pc) && c.runner.Some? && c.reported && c.uid.None? ==> c.runner.value !in runners
  }

  ghost predicate Conserved(s: State) {
    && (forall n :: n in s.secrets ==> SecretInUse(s.calls, n, s.secrets[n]))
    && (forall n :: n in s.jobs && s.jobs[n].maker.Some? ==>
          && s.jobs[n].maker.value in s.calls
          && JobHasSecret(s.secrets, s.jobs[n].maker.value, s.calls[s.jobs[n].maker.value], s.jobs[n]))
    && (forall p :: p in s.calls ==> RunnerGone(s.runners, s.calls[p]))
  }

  lemma SecretsConserved(s: State, p: nat, r: Reply, n: string)
    requires Conserved(s) && GateInv(s) && Booked(s) && CanAct(s, p) && Compensates(s.calls[p], r)
    requires n in SecretsAfter(s, p, s.calls[p], r)
    ensures SecretInUse(s.calls[p := CallAfter(s, s.calls[p], r)], n, SecretsAfter(s, p, s.calls[p], r)[n])
  {
    var c := s.calls[p];
    assert HasOwnSecret(s.secrets, p, c) && StageOk(s.nextRunner, s.now, c);
    assert n in s.secrets ==> SecretInUse(s.calls, n, s.secrets[n]);
    assert OwnsSecret(c.pc) && !OwnsSecret(CallAfter(s, c, r).pc)
      ==> SetsOwner(s, c, r) || c.pc.DropSecretNoJob? || c.pc.DropSecretNoOwner?;
  }

  /** One call's own step keeps its promise for its own Job. */
  lemma OwnJobConserved(s: State, p: nat, c: Call, r: Reply, j: Job)
    requires HasOwnSecret(s.secrets, p, c) && StageOk(s.nextRunner, s.now, c)
    requires c.uid == Some(j.uid) && JobHasSecret(s.secrets, p, c, j)
    ensures JobHasSecret(SecretsAfter(s, p, c, r), p, CallAfter(s, c, r), j)
  {
    assert Finished(CallAfter(s, c, r).pc) && !Finished(c.pc) ==> c.pc.SetOwner? || c.pc.DropSecretNoOwner?;
  }

  lemma RunnerSelf(s: State, p: nat, c: Call, r: Reply)
    requires RunnerGone(s.runners, c) && StageOk(s.nextRunner, s.now, c) && Compensates(c, r)
    ensures RunnerGone(RunnersAfter(s, p, c, r), CallAfter(s, c, r))
  {
  }

  lemma ConservedActStep(s: State, p: nat, r: Reply)
    requires Conserved(s) && GateInv(s) && Booked(s) && CanAct(s, p) && Compensates(s.calls[p], r)
    ensures Conserved(ActStep(s, p, r))
  {
    var c, t := s.calls[p], ActStep(s, p, r);
    forall n | n in t.secrets
      ensures SecretInUse(t.calls, n, t.secrets[n])
    {
      SecretsConserved(s, p, r, n);
    }
    JobsConserved(s, p, r);
    RunnerSelf(s, p, c, r);
    forall q | q in t.calls && q != p
      ensures RunnerGone(t.runners, t.calls[q])
    {
      assert RunnerGone(s.runners, s.calls[q]) && StageOk(s.nextRunner, s.now, s.calls[q]);
    }
  }

  lemma JobsConserved(s: State, p: nat, r: Reply)
    requires Conserved(s) && GateInv(s) && Booked(s) && CanAct(s, p)
    ensures var t := ActStep(s, p, r);
            forall n :: n in t.jobs && t.jobs[n].maker.Some? ==>
              && t.jobs[n].maker.value in t.calls
              && JobHasSecret(t.secrets, t.jobs[n].maker.value, t.calls[t.jobs[n].maker.value], t.jobs[n])
  {
    var c, t := s.calls[p], ActStep(s, p, r);
    forall n | n in t.jobs && t.jobs[n].maker.Some?
      ensures t.jobs[n].maker.value in t.calls
      ensures JobHasSecret(t.secrets, t.jobs[n].maker.value, t.calls[t.jobs[n].maker.value], t.jobs[n])
    {
      var q := t.jobs[n].maker.value;
      if n in s.jobs && t.jobs[n] == s.jobs[n] {
        assert JobOk(s.calls, n, s.jobs[n]);
        if q == p {
          OwnJobConserved(s, p, c, r, s.jobs[n]);
        } else {
          assert HasOwnSecret(s.secrets, p, c);
        }
      }
    }
  }

  lemma ConservedQuiet(s: State, t: State)
    requires Conserved(s) && Booked(s) && Quiet(s, t)
    requires forall p :: p in s.calls ==> t.calls[p] == s.calls[p]
    requires forall n :: n in s.secrets && s.secrets[n].owner.Some? && LiveUid(s, s.secrets[n].owner.value) ==> n in t.secrets
    ensures Conserved(t)
  {
    forall n | n in t.jobs && t.jobs[n].maker.Some?
      ensures t.jobs[n].maker.value in t.calls
      ensures JobHasSecret(t.secrets, t.jobs[n].maker.value, t.calls[t.jobs[n].maker.value], t.jobs[n])
    {
      assert n in s.jobs && LiveUid(s, s.jobs[n].uid);
    }
  }

  lemma ConservedStep(s: State, e: Event)
    requires Conserved(s) && GateInv(s) && Booked(s) && Enabled(s, e) && Smooth(s, e)
    ensures Conserved(Next(s, e))
  {
    if e.Act? {
      ConservedActStep(s, e.p, e.reply);
    } else {
      ConservedQuiet(s, Next(s, e));
    }
  }

  lemma {:induction false} ConservedHolds(s: State, es: seq<Event>)
    requires Init(s) && Valid(s, es) && EachStep(s, es, Smooth)
    ensures Conserved(Exec(s, es))
  {
    if es != [] {
      ConservedHolds(s, Front(es));
      GateHolds(s, Front(es));
      BooksHold(s, Front(es));
      ConservedStep(Exec(s, Front(es)), Last(es));
    }
  }

  /** Every call has returned and there is nothing to collect. */
  ghost predicate Quiescent(s: State) {
    && (forall p :: p in s.calls ==> s.calls[p].pc == Returned)
    && (forall n :: n in s.secrets && s.secrets[n].owner.Some? ==> LiveUid(s, s.secrets[n].owner.value))
  }

  /** At quiescence every Secret is owned by a live Job; every live Job whose dispatch returned nil
      has the Secret with its own runner's config; every runner with a reported id whose dispatch
      created no Job is deregistered. */
  lemma NothingLeftBehind(s: State, es: seq<Event>)
    requires Init(s) && Valid(s, es) && EachStep(s, es, Smooth) && Quiescent(Exec(s, es))
    ensures var t := Exec(s, es);
            && (forall n :: n in t.secrets ==> t.secrets[n].owner.Some? && LiveUid(t, t.secrets[n].owner.value))
            && (forall n, p :: n in t.jobs && p in t.calls && t.jobs[n].maker == Some(p) && t.calls[p].ok ==>
                  var c := t.calls[p];
                  c.runner.Some? && SecretName(c.key) in t.secrets
                  && t.secrets[SecretName(c.key)] == Secret(c.runner.value, Some(t.jobs[n].uid), t.jobs[n].maker))
            && (forall p :: p in t.calls && t.calls[p].runner.Some? && t.calls[p].reported && t.calls[p].uid.None? ==>
                  t.calls[p].runner.value !in t.runners)
  {
    ConservedHolds(s, es);
    var t := Exec(s, es);
    forall n | n in t.secrets
      ensures t.secrets[n].owner.Some?
    {
      assert SecretInUse(t.calls, n, t.secrets[n]);
    }
    forall p | p in t.calls
      ensures RunnerGone(t.runners, t.calls[p])
    {
    }
  }
}
