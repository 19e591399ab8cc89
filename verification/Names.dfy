/** Object names of one dispatch, and the parser the orphan sweep applies to runner names
    (internal/dispatch/dispatcher.go, internal/reconciler/orphan_runners.go). */
module Names {
  import opened Options
  import opened Decimal

  const RUNNER_PREFIX := "ghs-"

  datatype Key = Key(run: string, job: string)

  function RunnerName(k: Key): string { "ghs-" + k.run + "-" + k.job }
  function JobName(k: Key): string { "ghs-job-" + k.run + "-" + k.job }
  function SecretName(k: Key): string { "jit-" + k.run + "-" + k.job }

  /** Keys whose two parts are printed positive ids. */
  predicate IdKey(k: Key) { IsDigits(k.run) && IsDigits(k.job) }

  function LastIndex(s: string, c: char): (i: int)
    ensures -1 <= i < |s|
    ensures i >= 0 ==> s[i] == c
    ensures forall j :: i < j < |s| ==> s[j] != c
  {
    if s == "" then -1
    else if s[|s| - 1] == c then |s| - 1
    else LastIndex(s[..|s| - 1], c)
  }

  function ParseJobIDFromRunnerName(name: string): Option<string> {
    if !(RUNNER_PREFIX <= name) || |name| == |RUNNER_PREFIX| then None
    else
      var rest := name[|RUNNER_PREFIX|..];
      var i := LastIndex(rest, '-');
      if i <= 0 || i >= |rest| - 1 then None else Some(rest[i + 1..])
  }

  /** The last dash is the one before the job, if that has none. */
  lemma LastDash(k: Key)
    requires '-' !in k.job
    ensures LastIndex(k.run + "-" + k.job, '-') == |k.run|
  {
    var s := k.run + "-" + k.job;
    assert s[|k.run|] == '-';
    assert forall j :: |k.run| < j < |s| ==> s[j] == k.job[j - |k.run| - 1];
  }

  /** Parsing a runner name recovers the job id. */
  lemma ParseName(k: Key)
    requires k.run != "" && k.job != "" && '-' !in k.job
    ensures ParseJobIDFromRunnerName(RunnerName(k)) == Some(k.job)
  {
    var rest := k.run + "-" + k.job;
    LastDash(k);
    assert RunnerName(k)[|RUNNER_PREFIX|..] == rest;
    assert rest[|k.run| + 1..] == k.job;
  }

  lemma ParseRunnerName(k: Key)
    requires IdKey(k)
    ensures ParseJobIDFromRunnerName(RunnerName(k)) == Some(k.job)
  {
    ParseName(k);
  }

  /** The key a name is split into, if it parses. */
  lemma ParsedName(name: string) returns (k: Key)
    requires ParseJobIDFromRunnerName(name).Some?
    ensures name == "ghs-" + k.run + "-" + k.job && k.run != "" && k.job != "" && '-' !in k.job
    ensures ParseJobIDFromRunnerName(name) == Some(k.job)
  {
    var rest := name[|RUNNER_PREFIX|..];
    var i := LastIndex(rest, '-');
    k := Key(rest[..i], rest[i + 1..]);
    assert name == RUNNER_PREFIX + rest && rest == k.run + "-" + k.job;
    assert "ghs-" + k.run + "-" + k.job == "ghs-" + (k.run + "-" + k.job);
  }

  /** The names that parse are "ghs-", a run and a job joined by a dash, both non-empty and no dash in
      the job; and that job is what they parse to. */
  lemma ParseExact(name: string, job: string)
    ensures ParseJobIDFromRunnerName(name) == Some(job) <==>
            exists run: string :: run != "" && job != "" && '-' !in job && name == "ghs-" + run + "-" + job
  {
    if ParseJobIDFromRunnerName(name) == Some(job) {
      var k := ParsedName(name);
    }
    if run: string :| run != "" && job != "" && '-' !in job && name == "ghs-" + run + "-" + job {
      ParseName(Key(run, job));
    }
  }

  /** The name is that of a runner. */
  ghost predicate NamesRunner(name: string) {
    exists run: string, job: string :: run != "" && job != "" && '-' !in job && name == "ghs-" + run + "-" + job
  }

  lemma ParsesExact(name: string)
    ensures ParseJobIDFromRunnerName(name).Some? <==> NamesRunner(name)
  {
    if ParseJobIDFromRunnerName(name).Some? {
      var k := ParsedName(name);
    }
    if run: string, job: string :| run != "" && job != "" && '-' !in job && name == "ghs-" + run + "-" + job {
      ParseName(Key(run, job));
    }
  }

  lemma TailInjective(a: Key, b: Key)
    requires IdKey(a) && IdKey(b)
    requires a.run + "-" + a.job == b.run + "-" + b.job
    ensures a == b
  {
    LastDash(a);
    LastDash(b);
    var s := a.run + "-" + a.job;
    assert a.run == s[..|a.run|] && a.job == s[|a.run| + 1..];
    assert b.run == s[..|b.run|] && b.job == s[|b.run| + 1..];
  }

  lemma StripPrefix(p: string, a: Key, b: Key)
    requires p + a.run + "-" + a.job == p + b.run + "-" + b.job
    ensures a.run + "-" + a.job == b.run + "-" + b.job
  {
    var s, t := p + a.run + "-" + a.job, p + b.run + "-" + b.job;
    assert s[|p|..] == a.run + "-" + a.job;
    assert t[|p|..] == b.run + "-" + b.job;
  }

  /** Two dispatches share a runner, Job or Secret name only if they are for the same run and job. */
  lemma NamesInjective(a: Key, b: Key)
    requires IdKey(a) && IdKey(b)
    requires RunnerName(a) == RunnerName(b) || JobName(a) == JobName(b) || SecretName(a) == SecretName(b)
    ensures a == b
  {
    if RunnerName(a) == RunnerName(b) {
      StripPrefix("ghs-", a, b);
    } else if JobName(a) == JobName(b) {
      StripPrefix("ghs-job-", a, b);
    } else {
      StripPrefix("jit-", a, b);
    }
    TailInjective(a, b);
  }

  /** Ids printed from positive numbers give such keys, and different numbers different keys. */
  lemma PrintedIds(run: nat, job: nat, run': nat, job': nat)
    ensures IdKey(Key(FormatInt(run), FormatInt(job)))
    ensures Key(FormatInt(run), FormatInt(job)) == Key(FormatInt(run'), FormatInt(job')) ==> run == run' && job == job'
  {
    FormatParse(run);
    FormatParse(job);
    FormatParse(run');
    FormatParse(job');
  }
}
