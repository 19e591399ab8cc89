/** The deterministic Secret name as a second gate: it holds even when leases expire and are
    stolen. No hypothesis on time, crashes, failures or deletions of Jobs. */
module SecretGate {
  import opened Options
  import opened Names
  import opened Protocol

  /** A call between creating its Secret and being done with it finds that very Secret stored. */
  predicate HasOwnSecret(secrets: map<string, Secret>, p: nat, c: Call) {
    OwnsSecret(c.pc) ==>
      c.runner.Some? && SecretName(c.key) in secrets
      && secrets[SecretName(c.key)] == Secret(c.runner.value, None, Some(p))
  }

  ghost predicate GateInv(s: State) {
    forall p :: p in s.calls ==> HasOwnSecret(s.secrets, p, s.calls[p])
  }

  lemma GateSelf(s: State, p: nat, c: Call, r: Reply)
    requires HasOwnSecret(s.secrets, p, c)
    ensures HasOwnSecret(SecretsAfter(s, p, c, r), p, CallAfter(s, c, r))
  {
    assert OwnsSecret(CallAfter(s, c, r).pc) ==> OwnsSecret(c.pc) || MakesSecret(s, c, r);
  }

  /** What one call does to Secrets leaves the Secret of any other call alone. */
  lemma GateOther(s: State, p: nat, c: Call, r: Reply, q: nat, d: Call)
    requires HasOwnSecret(s.secrets, p, c) && HasOwnSecret(s.secrets, q, d) && p != q
    ensures HasOwnSecret(SecretsAfter(s, p, c, r), q, d)
  {
  }

  lemma GateActStep(s: State, p: nat, r: Reply)
    requires GateInv(s) && CanAct(s, p)
    ensures GateInv(ActStep(s, p, r))
  {
    GateSelf(s, p, s.calls[p], r);
    forall q | q in s.calls && q != p
      ensures HasOwnSecret(SecretsAfter(s, p, s.calls[p], r), q, s.calls[q])
    {
      GateOther(s, p, s.calls[p], r, q, s.calls[q]);
    }
  }

  lemma GateQuiet(s: State, t: State)
    requires GateInv(s) && Quiet(s, t)
    ensures GateInv(t)
  {
    forall p | p in t.calls && OwnsSecret(t.calls[p].pc)
      ensures HasOwnSecret(t.secrets, p, t.calls[p])
    {
      assert p in s.calls && t.calls[p] == s.calls[p] && HasOwnSecret(s.secrets, p, s.calls[p]);
    }
  }

  lemma {:induction false} GateHolds(s: State, es: seq<Event>)
    requires Init(s) && Valid(s, es)
    ensures GateInv(Exec(s, es))
  {
    if es != [] {
      GateHolds(s, Front(es));
      var t, e := Exec(s, Front(es)), Last(es);
      if e.Act? {
        GateActStep(t, e.p, e.reply);
      } else {
        GateQuiet(t, Next(t, e));
      }
    }
  }

  /** In every state `t` of a run at most one dispatch of a (run, job) is between creating its Secret
      and finishing with it, and the stored Secret is the one it created, with its runner's config. */
  lemma OneSecretUser(s: State, es: seq<Event>, t: State, p: nat, q: nat)
    requires Init(s) && Valid(s, es) && t == Exec(s, es)
    requires p in t.calls && q in t.calls && t.calls[p].key == t.calls[q].key
    requires OwnsSecret(t.calls[p].pc) && OwnsSecret(t.calls[q].pc)
    ensures p == q
    ensures HasOwnSecret(t.secrets, p, t.calls[p])
  {
    GateHolds(s, es);
    assert HasOwnSecret(t.secrets, p, t.calls[p]) && HasOwnSecret(t.secrets, q, t.calls[q]);
  }

  /** A step of the call overwrites or deletes the Secret. */
  predicate Touches(s: State, p: nat, r: Reply, n: string) {
    && CanAct(s, p) && n in s.secrets
    && (n !in ActStep(s, p, r).secrets || ActStep(s, p, r).secrets[n] != s.secrets[n])
  }

  /** Whatever Secret a step of a dispatch overwrites or deletes, that dispatch created it. */
  lemma TouchesOnlyOwnSecret(s: State, es: seq<Event>)
    requires Init(s) && Valid(s, es)
    ensures forall p: nat, r, n :: Touches(Exec(s, es), p, r, n) ==> Exec(s, es).secrets[n].maker == Some(p)
  {
    GateHolds(s, es);
    var t := Exec(s, es);
    forall p: nat, r, n | Touches(t, p, r, n) ensures t.secrets[n].maker == Some(p) {
      assert HasOwnSecret(t.secrets, p, t.calls[p]);
    }
  }
}
