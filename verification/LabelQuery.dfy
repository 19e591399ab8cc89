/** Parsing of runs-on labels (internal/labelquery/parser.go). */
module LabelQuery {
  import opened Options
  import opened Decimal

  datatype RunnerSpec = RunnerSpec(
    runID: string, cpu: int, mem: string, arch: string, pool: string, cache: bool, image: string,
    raw: map<string, string>)

  datatype Defaults = Defaults(cpu: int, arch: string)

  datatype ParseError =
    | Malformed(text: string) | RunsOnRequired | InvalidCpu(value: string) | MemRequired
    | InvalidArch(value: string) | InvalidCache(value: string) | MissingRunsOn

  datatype ParseResult = Parsed(spec: RunnerSpec) | Rejected(error: ParseError)

  /** Position of the first '=', or the length. */
  function FirstEq(s: string): (i: nat)
    ensures i <= |s| && '=' !in s[..i] && (i < |s| ==> s[i] == '=')
  {
    if s == "" || s[0] == '=' then 0 else 1 + FirstEq(s[1..])
  }

  predicate HasEq(text: string) { FirstEq(text) < |text| }
  function KeyOf(text: string): string { text[..FirstEq(text)] }
  function ValueOf(text: string): string { if HasEq(text) then text[FirstEq(text) + 1..] else "" }

  predicate Managed(labels: seq<string>) {
    exists l :: l in labels && HasEq(l) && KeyOf(l) == "runs-on"
  }

  /** strconv.Atoi: a signed decimal that fits 64 bits. */
  function Atoi(s: string): Option<int> {
    var v := ParseInt(s);
    if v.Some? && MIN_INT64 <= v.value <= MAX_INT64 then v else None
  }

  function ParseCache(value: string): Option<bool> {
    if value == "s3" || value == "true" || value == "1" then Some(true)
    else if value == "false" || value == "0" || value == "" then Some(false)
    else None
  }

  // ----- what the labels mean, as a whole -----

  datatype Field = RunsOn | Cpu | Mem | Arch | Pool | Cache | Image | Other

  function FieldOf(key: string): Field {
    if key == "runs-on" then RunsOn
    else if key == "cpu" then Cpu
    else if key == "mem" then Mem
    else if key == "arch" then Arch
    else if key == "pool" then Pool
    else if key == "cache" then Cache
    else if key == "image" then Image
    else Other
  }

  /** What is wrong with one label, if anything. */
  function Problem(text: string): Option<ParseError> {
    var v := ValueOf(text);
    if !HasEq(text) || KeyOf(text) == "" then Some(Malformed(text))
    else match FieldOf(KeyOf(text))
      case RunsOn => if v == "" then Some(RunsOnRequired) else None
      case Cpu => if Atoi(v).None? || Atoi(v).value <= 0 then Some(InvalidCpu(v)) else None
      case Mem => if v == "" then Some(MemRequired) else None
      case Arch => if v != "x64" && v != "arm64" then Some(InvalidArch(v)) else None
      case Cache => if ParseCache(v).None? then Some(InvalidCache(v)) else None
      case _ => None
  }

  function FirstProblem(labels: seq<string>): (e: Option<ParseError>)
    ensures e.None? <==> forall l :: l in labels ==> Problem(l).None?
  {
    if labels == [] then None
    else if Problem(labels[0]).Some? then Problem(labels[0])
    else FirstProblem(labels[1..])
  }

  /** The value of the last label of each key. */
  function LastValues(labels: seq<string>): map<string, string> {
    if labels == [] then map[]
    else LastValues(labels[..|labels| - 1])[KeyOf(labels[|labels| - 1]) := ValueOf(labels[|labels| - 1])]
  }

  function Get(m: map<string, string>, key: string, default: string): string {
    if key in m then m[key] else default
  }

  /** The spec a set of values stands for. */
  function Resolve(d: Defaults, m: map<string, string>): RunnerSpec {
    RunnerSpec(
      Get(m, "runs-on", ""),
      if "cpu" in m && Atoi(m["cpu"]).Some? then Atoi(m["cpu"]).value else d.cpu,
      Get(m, "mem", ""), Get(m, "arch", d.arch), Get(m, "pool", ""),
      "cache" in m && ParseCache(m["cache"]) == Some(true),
      Get(m, "image", ""),
      Unknown(m))
  }

  /** The values of unknown keys. */
  function Unknown(m: map<string, string>): map<string, string> {
    map k | k in m && FieldOf(k).Other? :: m[k]
  }

  lemma UnknownOne(m: map<string, string>, key: string, v: string)
    ensures Unknown(m[key := v]) == if FieldOf(key).Other? then Unknown(m)[key := v] else Unknown(m)
  {
  }

  /** The first bad label decides the error; otherwise the last label of each key the spec. */
  function Meaning(labels: seq<string>, d: Defaults): ParseResult {
    if FirstProblem(labels).Some? then Rejected(FirstProblem(labels).value)
    else if "runs-on" in LastValues(labels) then Parsed(Resolve(d, LastValues(labels)))
    else Rejected(MissingRunsOn)
  }

  // ----- the parser -----

  lemma FirstProblemOf(labels: seq<string>, i: nat)
    requires i < |labels| && Problem(labels[i]).Some?
    requires forall k :: 0 <= k < i ==> Problem(labels[k]).None?
    ensures FirstProblem(labels) == Problem(labels[i])
  {
    if i > 0 {
      FirstProblemOf(labels[1..], i - 1);
    }
  }

  lemma FirstProblemAppend(labels: seq<string>, i: nat)
    requires i < |labels| && FirstProblem(labels[..i]).None?
    ensures Problem(labels[i]).Some? ==> FirstProblem(labels) == Problem(labels[i])
    ensures Problem(labels[i]).None? ==> FirstProblem(labels[..i + 1]).None?
  {
    if Problem(labels[i]).Some? {
      forall k | 0 <= k < i ensures Problem(labels[k]).None? {
        assert labels[k] in labels[..i];
      }
      FirstProblemOf(labels, i);
    } else {
      forall l | l in labels[..i + 1] ensures Problem(l).None? {
        assert l in labels[..i] || l == labels[i];
      }
    }
  }

  /** One more label changes just its own field. */
  lemma ResolveOne(d: Defaults, m: map<string, string>, key: string, v: string)
    ensures var was, now := Resolve(d, m), Resolve(d, m[key := v]);
            match FieldOf(key)
            case RunsOn => now == was.(runID := v)
            case Cpu => Atoi(v).Some? ==> now == was.(cpu := Atoi(v).value)
            case Mem => now == was.(mem := v)
            case Arch => now == was.(arch := v)
            case Pool => now == was.(pool := v)
            case Cache => ParseCache(v).Some? ==> now == was.(cache := ParseCache(v).value)
            case Image => now == was.(image := v)
            case Other => now == was.(raw := was.raw[key := v])
  {
    UnknownOne(m, key, v);
  }

  lemma LastValuesStep(labels: seq<string>, i: nat)
    requires i < |labels|
    ensures LastValues(labels[..i + 1]) == LastValues(labels[..i])[KeyOf(labels[i]) := ValueOf(labels[i])]
  {
    assert labels[..i + 1][..i] == labels[..i];
  }

  /** The loop of the source: fields are set as labels come, a later one overwriting. */
  method Parse(labels: seq<string>, d: Defaults) returns (res: ParseResult)
    ensures res == Meaning(labels, d)
  {
    var spec := RunnerSpec("", d.cpu, "", d.arch, "", false, "", map[]);
    for i := 0 to |labels|
      invariant FirstProblem(labels[..i]).None?
      invariant spec == Resolve(d, LastValues(labels[..i]))
      invariant spec.runID == "" <==> "runs-on" !in LastValues(labels[..i])
    {
      var text := labels[i];
      FirstProblemAppend(labels, i);
      LastValuesStep(labels, i);
      ResolveOne(d, LastValues(labels[..i]), KeyOf(text), ValueOf(text));
      if !HasEq(text) || KeyOf(text) == "" {
        return Rejected(Malformed(text));
      }
      var key, value := KeyOf(text), ValueOf(text);
      match FieldOf(key) {
        case RunsOn =>
          if value == "" {
            return Rejected(RunsOnRequired);
          }
          spec := spec.(runID := value);
        case Cpu =>
          var cpu := Atoi(value);
          if cpu.None? || cpu.value <= 0 {
            return Rejected(InvalidCpu(value));
          }
          spec := spec.(cpu := cpu.value);
        case Mem =>
          if value == "" {
            return Rejected(MemRequired);
          }
          spec := spec.(mem := value);
        case Arch =>
          if value != "x64" && value != "arm64" {
            return Rejected(InvalidArch(value));
          }
          spec := spec.(arch := value);
        case Pool => spec := spec.(pool := value);
        case Cache =>
          var enabled := ParseCache(value);
          if enabled.None? {
            return Rejected(InvalidCache(value));
          }
          spec := spec.(cache := enabled.value);
        case Image => spec := spec.(image := value);
        case Other => spec := spec.(raw := spec.raw[key := value]);
      }
    }
    assert labels[..|labels|] == labels;
    if spec.runID == "" {
      return Rejected(MissingRunsOn);
    }
    return Parsed(spec);
  }

  // ----- properties -----

  /** Which keys have a value, and that it comes from a label. */
  lemma {:induction false} LastValuesFrom(labels: seq<string>)
    ensures forall l :: l in labels ==> KeyOf(l) in LastValues(labels)
    ensures forall k :: k in LastValues(labels) ==>
      exists l :: l in labels && KeyOf(l) == k && ValueOf(l) == LastValues(labels)[k]
  {
    if labels != [] {
      var n := |labels| - 1;
      var pre := labels[..n];
      LastValuesFrom(pre);
      assert labels == pre + [labels[n]];
      forall k | k in LastValues(labels)
        ensures exists l :: l in labels && KeyOf(l) == k && ValueOf(l) == LastValues(labels)[k]
      {
        if k == KeyOf(labels[n]) {
          assert labels[n] in labels;
        } else {
          assert k in LastValues(pre);
          var l :| l in pre && KeyOf(l) == k && ValueOf(l) == LastValues(pre)[k];
          assert l in labels;
        }
      }
    }
  }

  /** No two different labels share a key. */
  ghost predicate DistinctKeys(labels: seq<string>) {
    forall a, b :: a in labels && b in labels && KeyOf(a) == KeyOf(b) ==> a == b
  }

  /** With distinct keys, the order of the labels (and repeating one) makes no difference to
      success and to the resulting spec. */
  lemma OrderIndependent(a: seq<string>, b: seq<string>, d: Defaults)
    requires DistinctKeys(a) && forall l :: l in a <==> l in b
    ensures Meaning(a, d).Parsed? <==> Meaning(b, d).Parsed?
    ensures Meaning(a, d).Parsed? ==> Meaning(a, d) == Meaning(b, d)
  {
    LastValuesFrom(a);
    LastValuesFrom(b);
    forall k | k in LastValues(a)
      ensures k in LastValues(b) && LastValues(b)[k] == LastValues(a)[k]
    {
      var l :| l in a && KeyOf(l) == k && ValueOf(l) == LastValues(a)[k];
      assert l in b;
    }
    forall k | k in LastValues(b)
      ensures k in LastValues(a)
    {
      var l :| l in b && KeyOf(l) == k && ValueOf(l) == LastValues(b)[k];
      assert l in a;
    }
    assert LastValues(a) == LastValues(b);
  }

  predicate Overridden(text: string, later: seq<string>) {
    exists l :: l in later && KeyOf(l) == KeyOf(text)
  }

  /** The labels that no later label overrides. */
  function Effective(labels: seq<string>): seq<string> {
    if labels == [] then []
    else if Overridden(labels[0], labels[1..]) then Effective(labels[1..])
    else [labels[0]] + Effective(labels[1..])
  }

  lemma {:induction false} EffectiveSubset(labels: seq<string>)
    ensures forall l :: l in Effective(labels) ==> l in labels
  {
    if labels != [] {
      EffectiveSubset(labels[1..]);
    }
  }

  lemma {:induction false} LastValuesCons(text: string, rest: seq<string>)
    ensures LastValues([text] + rest) == map[KeyOf(text) := ValueOf(text)] + LastValues(rest)
  {
    var n := |rest|;
    var all := [text] + rest;
    if n > 0 {
      LastValuesCons(text, rest[..n - 1]);
      assert all[..n] == [text] + rest[..n - 1];
    } else {
      assert all[..0] == [];
    }
  }

  lemma OverriddenHasValue(text: string, later: seq<string>)
    requires Overridden(text, later)
    ensures KeyOf(text) in LastValues(later)
  {
    LastValuesFrom(later);
  }

  lemma {:induction false} EffectiveValues(labels: seq<string>)
    ensures LastValues(Effective(labels)) == LastValues(labels)
  {
    if labels != [] {
      var text, rest := labels[0], labels[1..];
      assert labels == [text] + rest;
      EffectiveValues(rest);
      LastValuesCons(text, rest);
      if Overridden(text, rest) {
        OverriddenHasValue(text, rest);
      } else {
        LastValuesCons(text, Effective(rest));
      }
    }
  }

  /** A successful result depends only on the last label of each key. */
  lemma LastLabelWins(labels: seq<string>, d: Defaults)
    requires Meaning(labels, d).Parsed?
    ensures Meaning(Effective(labels), d) == Meaning(labels, d)
  {
    EffectiveSubset(labels);
    EffectiveValues(labels);
  }

  /** Labels that parse are labels the scheduler manages. */
  lemma ParsedIsManaged(labels: seq<string>, d: Defaults)
    requires Meaning(labels, d).Parsed?
    ensures Managed(labels) && Meaning(labels, d).spec.runID != ""
  {
    LastValuesFrom(labels);
    var l :| l in labels && KeyOf(l) == "runs-on" && ValueOf(l) == LastValues(labels)["runs-on"];
    assert Problem(l).None?;
  }

  // ----- in terms of the texts -----

  lemma LabelText(key: string, v: string)
    requires '=' !in key
    ensures HasEq(key + "=" + v) && KeyOf(key + "=" + v) == key && ValueOf(key + "=" + v) == v
  {
    var text := key + "=" + v;
    var i := FirstEq(text);
    assert forall k :: 0 <= k < i ==> text[..i][k] == text[k];
    assert text[|key|] == '=' && forall k :: 0 <= k < |key| ==> text[k] == key[k];
  }

  lemma TextOf(text: string)
    ensures HasEq(text) ==> text == KeyOf(text) + "=" + ValueOf(text) && '=' !in KeyOf(text)
    ensures !HasEq(text) ==> '=' !in text
  {
    assert !HasEq(text) ==> text[..|text|] == text;
  }

  /** The text begins with the key and an equals sign. */
  predicate Gives(text: string, key: string) { key + "=" <= text }

  lemma GivesExact(text: string, key: string)
    requires '=' !in key
    ensures Gives(text, key) <==> HasEq(text) && KeyOf(text) == key
    ensures Gives(text, key) ==> text == key + "=" + ValueOf(text)
  {
    TextOf(text);
    if Gives(text, key) {
      var v := text[|key| + 1..];
      assert text == key + "=" + v;
      LabelText(key, v);
    }
  }

  /** The last label with this key says `v`. */
  ghost predicate Says(labels: seq<string>, key: string, v: string) {
    exists i :: 0 <= i < |labels| && labels[i] == key + "=" + v && forall k :: i < k < |labels| ==> !Gives(labels[k], key)
  }

  /** No label has this key. */
  predicate Silent(labels: seq<string>, key: string) {
    forall i :: 0 <= i < |labels| ==> !Gives(labels[i], key)
  }

  lemma {:induction false} LastValuesExact(labels: seq<string>, key: string)
    requires '=' !in key && forall l :: l in labels ==> HasEq(l)
    ensures key in LastValues(labels) <==> !Silent(labels, key)
    ensures forall v :: Says(labels, key, v) <==> key in LastValues(labels) && LastValues(labels)[key] == v
  {
    if labels != [] {
      var n := |labels| - 1;
      var pre, last := labels[..n], labels[n];
      LastValuesExact(pre, key);
      GivesExact(last, key);
      LastSaid(labels, key);
      assert Silent(labels, key) <==> Silent(pre, key) && !Gives(last, key) by {
        assert forall i :: 0 <= i < n ==> labels[i] == pre[i];
      }
    }
  }

  lemma LastSaid(labels: seq<string>, key: string)
    requires labels != [] && '=' !in key
    ensures var n := |labels| - 1;
            forall v :: Says(labels, key, v) <==> if Gives(labels[n], key) then labels[n] == key + "=" + v else Says(labels[..n], key, v)
  {
    var n := |labels| - 1;
    var pre := labels[..n];
    forall v ensures Says(labels, key, v) <==> if Gives(labels[n], key) then labels[n] == key + "=" + v else Says(pre, key, v) {
      if Says(labels, key, v) {
        var i :| 0 <= i < |labels| && labels[i] == key + "=" + v && forall k :: i < k < |labels| ==> !Gives(labels[k], key);
        if i < n {
          assert pre[i] == labels[i] && forall k :: i < k < n ==> pre[k] == labels[k];
        }
      }
      if !Gives(labels[n], key) && Says(pre, key, v) {
        var i :| 0 <= i < n && pre[i] == key + "=" + v && forall k :: i < k < n ==> !Gives(pre[k], key);
        assert labels[i] == pre[i] && forall k :: i < k < n ==> labels[k] == pre[k];
      }
    }
  }

  /** A number of processors: a decimal text of a positive 64-bit number. */
  predicate CpuText(v: string, n: int) { ParseInt(v) == Some(n) && 0 < n < 0x8000_0000_0000_0000 }

  /** What each key may be given. */
  ghost predicate Allowed(key: string, v: string) {
    && (key in ["runs-on", "mem"] ==> v != "")
    && (key == "cpu" ==> exists n :: CpuText(v, n))
    && (key == "arch" ==> v in ["x64", "arm64"])
    && (key == "cache" ==> v in ["s3", "true", "1", "false", "0", ""])
  }

  /** A key and a value it may be given, joined by the first equals sign. */
  ghost predicate GoodLabel(text: string) {
    exists key, v :: key != "" && '=' !in key && text == key + "=" + v && Allowed(key, v)
  }

  lemma AllowedExact(text: string)
    requires HasEq(text) && KeyOf(text) != ""
    ensures Problem(text).None? <==> Allowed(KeyOf(text), ValueOf(text))
    ensures Problem(text) != Some(Malformed(text))
  {
    var key, v := KeyOf(text), ValueOf(text);
    match FieldOf(key) {
      case Cpu => AtoiExact(v);
      case _ =>
        assert Allowed(key, v) <==>
               (key in ["runs-on", "mem"] ==> v != "") && (key == "arch" ==> v in ["x64", "arm64"])
               && (key == "cache" ==> v in ["s3", "true", "1", "false", "0", ""]);
    }
  }

  lemma AtoiExact(v: string)
    ensures Atoi(v).Some? && Atoi(v).value > 0 <==> exists n :: CpuText(v, n)
  {
    if n :| CpuText(v, n) {
      assert Atoi(v) == Some(n);
    } else {
      assert Atoi(v).Some? ==> !CpuText(v, Atoi(v).value);
    }
  }

  /** What is said of a label that is not allowed. */
  lemma ErrorExact(key: string, v: string)
    requires key != "" && '=' !in key && !Allowed(key, v)
    ensures Problem(key + "=" + v) ==
            Some(if key == "runs-on" then RunsOnRequired
                 else if key == "mem" then MemRequired
                 else if key == "cpu" then InvalidCpu(v)
                 else if key == "arch" then InvalidArch(v)
                 else InvalidCache(v))
  {
    LabelText(key, v);
    AllowedExact(key + "=" + v);
  }

  lemma ProblemExact(text: string)
    ensures Problem(text).None? <==> GoodLabel(text)
    ensures Problem(text) == Some(Malformed(text)) <==> '=' !in text || "=" <= text
  {
    TextOf(text);
    var key, v := KeyOf(text), ValueOf(text);
    forall k, w | '=' !in k && text == k + "=" + w ensures k == key && w == v {
      LabelText(k, w);
    }
    if HasEq(text) {
      assert text == key + "=" + v;
      if key != "" {
        AllowedExact(text);
      }
    }
  }

  lemma ManagedExact(labels: seq<string>)
    ensures Managed(labels) <==> exists l :: l in labels && Gives(l, "runs-on")
  {
    forall l | l in labels ensures Gives(l, "runs-on") <==> HasEq(l) && KeyOf(l) == "runs-on" {
      GivesExact(l, "runs-on");
    }
  }

  /** Which labels parse: good ones with a runs-on among them. */
  lemma AcceptedExact(labels: seq<string>, d: Defaults)
    ensures Meaning(labels, d).Parsed? <==> (forall l :: l in labels ==> GoodLabel(l)) && !Silent(labels, "runs-on")
    ensures Meaning(labels, d) == Rejected(MissingRunsOn) <==> (forall l :: l in labels ==> GoodLabel(l)) && Silent(labels, "runs-on")
  {
    forall l | l in labels ensures Problem(l).None? <==> GoodLabel(l) {
      ProblemExact(l);
    }
    FirstIsAProblem(labels);
    if FirstProblem(labels).None? {
      LastValuesExact(labels, "runs-on");
    }
  }

  lemma OneProblem(text: string)
    ensures Problem(text) != Some(MissingRunsOn)
  {
  }

  lemma {:induction false} FirstIsAProblem(labels: seq<string>)
    ensures FirstProblem(labels) != Some(MissingRunsOn)
  {
    if labels != [] {
      OneProblem(labels[0]);
      FirstIsAProblem(labels[1..]);
    }
  }

  lemma ValuesAllowed(labels: seq<string>, key: string)
    requires FirstProblem(labels).None? && key in LastValues(labels)
    ensures '=' !in key && Allowed(key, LastValues(labels)[key]) && Says(labels, key, LastValues(labels)[key])
  {
    LastValuesFrom(labels);
    var l :| l in labels && KeyOf(l) == key && ValueOf(l) == LastValues(labels)[key];
    ProblemExact(l);
    var k, v :| k != "" && '=' !in k && l == k + "=" + v && Allowed(k, v);
    LabelText(k, v);
    EqualsSigns(labels);
    LastValuesExact(labels, key);
  }

  lemma EqualsSigns(labels: seq<string>)
    requires FirstProblem(labels).None?
    ensures forall l :: l in labels ==> HasEq(l)
  {
    forall l | l in labels ensures HasEq(l) {
      assert Problem(l).None?;
    }
  }

  /** What the last label of the key says, if there is one. */
  lemma KeyExact(labels: seq<string>, key: string)
    requires FirstProblem(labels).None? && '=' !in key
    ensures key in LastValues(labels) <==> !Silent(labels, key)
    ensures forall v :: Says(labels, key, v) <==> key in LastValues(labels) && LastValues(labels)[key] == v
    ensures key in LastValues(labels) ==> Allowed(key, LastValues(labels)[key])
  {
    EqualsSigns(labels);
    LastValuesExact(labels, key);
    if key in LastValues(labels) {
      ValuesAllowed(labels, key);
    }
  }

  const KNOWN: seq<string> := ["runs-on", "cpu", "mem", "arch", "pool", "cache", "image"]

  /** What they parse to: each text field is what the last label of its key says, or else its default. */
  lemma TextsExact(labels: seq<string>, d: Defaults)
    requires Meaning(labels, d).Parsed?
    ensures var spec := Meaning(labels, d).spec;
            && Says(labels, "runs-on", spec.runID) && spec.runID != ""
            && (if Silent(labels, "mem") then spec.mem == "" else Says(labels, "mem", spec.mem) && spec.mem != "")
            && (if Silent(labels, "arch") then spec.arch == d.arch else Says(labels, "arch", spec.arch) && spec.arch in ["x64", "arm64"])
            && (if Silent(labels, "pool") then spec.pool == "" else Says(labels, "pool", spec.pool))
            && (if Silent(labels, "image") then spec.image == "" else Says(labels, "image", spec.image))
  {
    KeyExact(labels, "runs-on");
    KeyExact(labels, "mem");
    KeyExact(labels, "arch");
    KeyExact(labels, "pool");
    KeyExact(labels, "image");
  }

  /** The number of processors is the last one given, or else its default; the cache is on exactly if the
      last label for it is one of three texts. */
  lemma CpuAndCacheExact(labels: seq<string>, d: Defaults)
    requires Meaning(labels, d).Parsed?
    ensures var spec := Meaning(labels, d).spec;
            && (if Silent(labels, "cpu") then spec.cpu == d.cpu else exists v :: Says(labels, "cpu", v) && CpuText(v, spec.cpu))
            && (spec.cache <==> exists v :: v in ["s3", "true", "1"] && Says(labels, "cache", v))
  {
    var m := LastValues(labels);
    KeyExact(labels, "cpu");
    KeyExact(labels, "cache");
    if "cpu" in m {
      var n :| CpuText(m["cpu"], n);
      assert Atoi(m["cpu"]) == Some(n) && Says(labels, "cpu", m["cpu"]);
    }
  }

  /** What is kept raw is what the labels of all other keys say. */
  lemma RawExact(labels: seq<string>, d: Defaults, k: string, v: string)
    requires Meaning(labels, d).Parsed?
    ensures var raw := Meaning(labels, d).spec.raw;
            (k in raw && raw[k] == v) <==> '=' !in k && k !in KNOWN && Says(labels, k, v)
  {
    var m := LastValues(labels);
    assert FieldOf(k).Other? <==> k !in KNOWN;
    if '=' !in k {
      KeyExact(labels, k);
    } else if k in m {
      ValuesAllowed(labels, k);
    }
  }
}
