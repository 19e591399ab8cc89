/** The pod watcher (internal/informer/podwatch.go): turns pod notifications into lifecycle events,
    each at most once per pod. */
module PodWatch {
  import opened Options
  import opened Pods
  import Decimal

  // ----- what a pod state says -----

  predicate IsScheduled(pod: Pod) {
    exists i :: 0 <= i < |pod.conditions| && pod.conditions[i] == Condition("PodScheduled", "True")
  }

  predicate IsRunning(pod: Pod) { pod.phase == "Running" }
  predicate IsTerminal(pod: Pod) { pod.phase == "Succeeded" || pod.phase == "Failed" }

  predicate BadSidecar(cs: ContainerStatus) {
    || (cs.state.terminated.Some? && cs.state.terminated.value != 0)
    || cs.state.waiting.Some?
    || (cs.restarts > 0 && !cs.ready)
  }

  /** The last runner status is running, and some sidecar status is bad. */
  predicate SidecarFailed(pod: Pod) {
    && "cache-sidecar" in pod.containers
    && (exists i :: 0 <= i < |pod.statuses| && pod.statuses[i].name == "runner" && pod.statuses[i].state.running
          && forall j :: i < j < |pod.statuses| ==> pod.statuses[j].name != "runner")
    && (exists i :: 0 <= i < |pod.statuses| && pod.statuses[i].name == "cache-sidecar" && BadSidecar(pod.statuses[i]))
  }

  method ShouldReportCacheSidecarFailure(pod: Pod) returns (r: bool)
    ensures r == SidecarFailed(pod)
  {
    if "cache-sidecar" !in pod.containers {
      return false;
    }
    var runnerUp, sidecarBad := false, false;
    ghost var lastRunner := -1;
    for k := 0 to |pod.statuses|
      invariant -1 <= lastRunner < k
      invariant forall j :: lastRunner < j < k ==> pod.statuses[j].name != "runner"
      invariant lastRunner >= 0 ==> pod.statuses[lastRunner].name == "runner"
      invariant runnerUp <==> lastRunner >= 0 && pod.statuses[lastRunner].state.running
      invariant sidecarBad <==> exists i :: 0 <= i < k && pod.statuses[i].name == "cache-sidecar" && BadSidecar(pod.statuses[i])
    {
      var cs := pod.statuses[k];
      if cs.name == "runner" {
        runnerUp := cs.state.running;
        lastRunner := k;
      } else if cs.name == "cache-sidecar" {
        if cs.state.terminated.Some? && cs.state.terminated.value != 0 {
          sidecarBad := true;
        }
        if cs.state.waiting.Some? {
          sidecarBad := true;
        }
        if cs.restarts > 0 && !cs.ready {
          sidecarBad := true;
        }
      }
    }
    return runnerUp && sidecarBad;
  }

  /** The exit code of the first terminated container, or a guess from the phase. */
  function ExitCode(phase: string, statuses: seq<ContainerStatus>): string {
    if statuses == [] then if phase == "Succeeded" then "0" else "1"
    else if statuses[0].state.terminated.Some? then Decimal.FormatInt(statuses[0].state.terminated.value)
    else ExitCode(phase, statuses[1..])
  }

  method ReadExitCode(pod: Pod) returns (code: string)
    requires ValidPod(pod)
    ensures code == ExitCode(pod.phase, pod.statuses)
  {
    for k := 0 to |pod.statuses|
      invariant ExitCode(pod.phase, pod.statuses[k..]) == ExitCode(pod.phase, pod.statuses)
    {
      assert pod.statuses[k..][1..] == pod.statuses[k + 1..];
      if pod.statuses[k].state.terminated.Some? {
        code := Decimal.Itoa(pod.statuses[k].state.terminated.value);
        return;
      }
    }
    return if pod.phase == "Succeeded" then "0" else "1";
  }

  // ----- what a notification emits -----

  /** One notification: the pod, and its earlier state if it was an update. */
  datatype Notice = Notice(pod: Pod, prev: Option<Pod>)

  datatype Event = Scheduled | Running | CacheSidecarFailed | RunnerExit | Completed

  /** An event as the emitter receives it. */
  datatype Emission = Emission(pod: string, event: Event, attrs: map<string, string>)

  function PodKey(pod: Pod): string { pod.namespace + "/" + pod.name }

  function PodAttrs(pod: Pod): map<string, string> {
    map["run_id" := LabelOf(pod, LABEL_RUN), "job_id" := LabelOf(pod, LABEL_JOB), "pod" := pod.name, "phase" := pod.phase]
  }

  function Attrs(n: Notice, e: Event): map<string, string> {
    match e
    case CacheSidecarFailed => map[]
    case RunnerExit => map["job_id" := LabelOf(n.pod, LABEL_GH_JOB)]
    case Completed => PodAttrs(n.pod)["exit_code" := ExitCode(n.pod.phase, n.pod.statuses)]
    case _ => PodAttrs(n.pod)
  }

  /** `f` did not hold of the earlier state. */
  predicate Newly(n: Notice, f: Pod -> bool) { f(n.pod) && (n.prev.Some? ==> !f(n.prev.value)) }

  predicate NeedsCleanup(pod: Pod) { PodRunnerCleanupReason(pod) != "" }

  /** Whether the notification calls for the event; `exits` says whether anyone wants RunnerExit. */
  predicate Fires(n: Notice, e: Event, exits: bool) {
    match e
    case Scheduled => Newly(n, IsScheduled)
    case Running => Newly(n, IsRunning) || (n.prev.None? && IsTerminal(n.pod))
    case CacheSidecarFailed => SidecarFailed(n.pod)
    case RunnerExit => exits && LabelOf(n.pod, LABEL_GH_JOB) != "" && Newly(n, NeedsCleanup)
    case Completed => Newly(n, IsTerminal)
  }

  ghost predicate Has(log: seq<Emission>, pod: string, e: Event) {
    exists i :: 0 <= i < |log| && log[i].pod == pod && log[i].event == e
  }

  /** The log after the event is called for: unchanged if it is not, or not for the first time. */
  ghost function Emit(log: seq<Emission>, n: Notice, e: Event, exits: bool): seq<Emission> {
    if Fires(n, e, exits) && !Has(log, PodKey(n.pod), e) then log + [Emission(PodKey(n.pod), e, Attrs(n, e))] else log
  }

  lemma HasAppend(log: seq<Emission>, m: Emission, pod: string, e: Event)
    ensures Has(log + [m], pod, e) <==> Has(log, pod, e) || (m.pod == pod && m.event == e)
  {
    assert (log + [m])[|log|] == m;
    assert forall i :: 0 <= i < |log| ==> (log + [m])[i] == log[i];
  }

  lemma EmitHas(log: seq<Emission>, n: Notice, e: Event, exits: bool, pod: string, x: Event)
    ensures Has(Emit(log, n, e, exits), pod, x) <==> Has(log, pod, x) || (pod == PodKey(n.pod) && x == e && Fires(n, e, exits))
  {
    HasAppend(log, Emission(PodKey(n.pod), e, Attrs(n, e)), pod, x);
  }

  lemma EmitAllHas(log: seq<Emission>, n: Notice, exits: bool, pod: string, x: Event)
    ensures Has(EmitAll(log, n, exits), pod, x) <==> Has(log, pod, x) || (pod == PodKey(n.pod) && Fires(n, x, exits))
  {
    var a := Emit(log, n, Scheduled, exits);
    var b := Emit(a, n, Running, exits);
    var c := Emit(b, n, CacheSidecarFailed, exits);
    var d := Emit(c, n, RunnerExit, exits);
    EmitHas(log, n, Scheduled, exits, pod, x);
    EmitHas(a, n, Running, exits, pod, x);
    EmitHas(b, n, CacheSidecarFailed, exits, pod, x);
    EmitHas(c, n, RunnerExit, exits, pod, x);
    EmitHas(d, n, Completed, exits, pod, x);
  }

  /** One notification: its events in the order the watcher considers them. */
  ghost function EmitAll(log: seq<Emission>, n: Notice, exits: bool): seq<Emission> {
    var a := Emit(log, n, Scheduled, exits);
    var b := Emit(a, n, Running, exits);
    var c := Emit(b, n, CacheSidecarFailed, exits);
    var d := Emit(c, n, RunnerExit, exits);
    Emit(d, n, Completed, exits)
  }

  /** Everything emitted over a history of notifications. */
  ghost function Emitted(ns: seq<Notice>, exits: bool): seq<Emission> {
    if ns == [] then [] else EmitAll(Emitted(ns[..|ns| - 1], exits), ns[|ns| - 1], exits)
  }

  // ----- in terms of the pods -----

  /** The runner container, going by its first status, is terminated or waits in vain. */
  ghost predicate RunnerDone(pod: Pod) { exists s :: RunnerIn(pod, s) && (s.terminated.Some? || WaitsInVain(s)) }

  /** When a notification calls for an event: what the pod was first seen to be, or delivered as. */
  lemma FiresExact(n: Notice, e: Event, exits: bool)
    ensures Fires(n, e, exits) <==>
            match e
            case Scheduled =>
              && Condition("PodScheduled", "True") in n.pod.conditions
              && (n.prev.Some? ==> Condition("PodScheduled", "True") !in n.prev.value.conditions)
            case Running =>
              || (n.pod.phase == "Running" && (n.prev.Some? ==> n.prev.value.phase != "Running"))
              || (n.prev.None? && n.pod.phase in ["Succeeded", "Failed"])
            case CacheSidecarFailed =>
              && "cache-sidecar" in n.pod.containers
              && (exists i :: 0 <= i < |n.pod.statuses| && n.pod.statuses[i].name == "runner" && n.pod.statuses[i].state.running
                    && forall k :: i < k < |n.pod.statuses| ==> n.pod.statuses[k].name != "runner")
              && (exists cs :: cs in n.pod.statuses && cs.name == "cache-sidecar"
                    && (|| (cs.state.terminated.Some? && cs.state.terminated.value != 0)
                        || cs.state.waiting.Some? || (cs.restarts >= 1 && !cs.ready)))
            case RunnerExit =>
              && exits && "gha-scheduler.gh_job_id" in n.pod.labels && n.pod.labels["gha-scheduler.gh_job_id"] != ""
              && RunnerDone(n.pod) && (n.prev.Some? ==> !RunnerDone(n.prev.value))
            case Completed =>
              n.pod.phase in ["Succeeded", "Failed"] && (n.prev.Some? ==> n.prev.value.phase !in ["Succeeded", "Failed"])
  {
    match e {
      case RunnerExit =>
        CleanupExact(n.pod);
        if n.prev.Some? {
          CleanupExact(n.prev.value);
        }
      case _ =>
    }
  }

  /** The exit code an event carries: that of the first terminated container, or a guess from the phase. */
  lemma {:induction false} ExitCodeExact(phase: string, statuses: seq<ContainerStatus>)
    ensures forall i :: 0 <= i < |statuses| && statuses[i].state.terminated.Some? && (forall k :: 0 <= k < i ==> statuses[k].state.terminated.None?)
              ==> ExitCode(phase, statuses) == Decimal.FormatInt(statuses[i].state.terminated.value)
    ensures (forall i :: 0 <= i < |statuses| ==> statuses[i].state.terminated.None?)
              ==> ExitCode(phase, statuses) == if phase == "Succeeded" then "0" else "1"
  {
    if statuses != [] {
      ExitCodeExact(phase, statuses[1..]);
      assert forall i :: 0 < i < |statuses| ==> statuses[i] == statuses[1..][i - 1];
    }
  }

  /** The text is that of the label, or empty if there is none. */
  predicate IsLabel(v: string, pod: Pod, key: string) { if key in pod.labels then v == pod.labels[key] else v == "" }

  /** What an event carries of the pod. */
  predicate CarriesPod(m: Emission, pod: Pod) {
    && m.pod == pod.namespace + "/" + pod.name
    && (m.event in [Scheduled, Running, Completed] ==>
          && m.attrs.Keys == {"run_id", "job_id", "pod", "phase"} + (if m.event == Completed then {"exit_code"} else {})
          && IsLabel(m.attrs["run_id"], pod, "gha-scheduler.run_id") && IsLabel(m.attrs["job_id"], pod, "gha-scheduler.job_id")
          && m.attrs["pod"] == pod.name && m.attrs["phase"] == pod.phase
          && (m.event == Completed ==> m.attrs["exit_code"] == ExitCode(pod.phase, pod.statuses)))
    && (m.event == RunnerExit ==> m.attrs.Keys == {"job_id"} && IsLabel(m.attrs["job_id"], pod, "gha-scheduler.gh_job_id"))
    && (m.event == CacheSidecarFailed ==> m.attrs == map[])
  }

  lemma AttrsExact(n: Notice, e: Event)
    ensures CarriesPod(Emission(PodKey(n.pod), e, Attrs(n, e)), n.pod)
  {
  }

  /** What is emitted for a notification is about its pod. */
  ghost predicate AllCarry(log: seq<Emission>, more: seq<Emission>, pod: Pod) {
    log <= more && forall i :: |log| <= i < |more| ==> CarriesPod(more[i], pod)
  }

  lemma EmitCarries(log: seq<Emission>, n: Notice, e: Event, exits: bool)
    ensures AllCarry(log, Emit(log, n, e, exits), n.pod)
  {
    AttrsExact(n, e);
  }

  lemma EmitAllCarries(log: seq<Emission>, n: Notice, exits: bool)
    ensures AllCarry(log, EmitAll(log, n, exits), n.pod)
  {
    var a := Emit(log, n, Scheduled, exits);
    var b := Emit(a, n, Running, exits);
    var c := Emit(b, n, CacheSidecarFailed, exits);
    EmitCarries(log, n, Scheduled, exits);
    EmitCarries(a, n, Running, exits);
    EmitCarries(b, n, CacheSidecarFailed, exits);
    EmitCarries(c, n, RunnerExit, exits);
    EmitCarries(Emit(c, n, RunnerExit, exits), n, Completed, exits);
  }

  // ----- the watcher -----

  class PodWatcher {
    const exits: bool                         // whether a runner exit callback is set
    var seen: map<string, set<Event>>
    var log: seq<Emission>                    // the calls made to the emitter and the callback
    ghost var notices: seq<Notice>

    ghost predicate SeenIsLogged()
      reads this
    {
      forall k, e :: Has(log, k, e) <==> k in seen && e in seen[k]
    }

    ghost predicate Valid()
      reads this
    {
      SeenIsLogged() && log == Emitted(notices, exits)
    }

    constructor (exits: bool)
      ensures Valid() && notices == [] && this.exits == exits
    {
      this.exits := exits;
      seen, log, notices := map[], [], [];
      new;
      assert Emitted([], exits) == [];
    }

    method EmitOnce(ghost n: Notice, podKey: string, e: Event, attrs: map<string, string>)
      requires SeenIsLogged() && Fires(n, e, exits) && podKey == PodKey(n.pod) && attrs == Attrs(n, e)
      modifies `seen, `log
      ensures SeenIsLogged() && log == Emit(old(log), n, e, exits)
    {
      if podKey !in seen {
        seen := seen[podKey := {}];
      }
      if e in seen[podKey] {
        return;
      }
      seen := seen[podKey := seen[podKey] + {e}];
      forall k, x ensures Has(log + [Emission(podKey, e, attrs)], k, x) <==> Has(log, k, x) || (podKey == k && e == x) {
        HasAppend(log, Emission(podKey, e, attrs), k, x);
      }
      log := log + [Emission(podKey, e, attrs)];
    }

    method MaybeRunnerExit(n: Notice)
      requires SeenIsLogged()
      modifies `seen, `log
      ensures SeenIsLogged() && log == Emit(old(log), n, RunnerExit, exits)
    {
      if !exits {
        return;
      }
      var jobID := LabelOf(n.pod, LABEL_GH_JOB);
      if jobID == "" {
        return;
      }
      if PodRunnerCleanupReason(n.pod) == "" {
        return;
      }
      var oldReason := "";
      if n.prev.Some? {
        oldReason := PodRunnerCleanupReason(n.prev.value);
      }
      if oldReason != "" {
        return;
      }
      EmitOnce(n, PodKey(n.pod), RunnerExit, map["job_id" := jobID]);
    }

    method ReportStart(n: Notice)
      requires SeenIsLogged()
      modifies `seen, `log
      ensures SeenIsLogged() && log == Emit(Emit(old(log), n, Scheduled, exits), n, Running, exits)
    {
      var attrs, podKey := PodAttrs(n.pod), PodKey(n.pod);
      if !(n.prev.Some? && IsScheduled(n.prev.value)) && IsScheduled(n.pod) {
        EmitOnce(n, podKey, Scheduled, attrs);
      }
      if !(n.prev.Some? && IsRunning(n.prev.value)) && IsRunning(n.pod) {
        EmitOnce(n, podKey, Running, attrs);
      } else if n.prev.None? && IsTerminal(n.pod) && !IsRunning(n.pod) {
        EmitOnce(n, podKey, Running, attrs);
      }
    }

    method ReportCacheSidecar(n: Notice)
      requires SeenIsLogged()
      modifies `seen, `log
      ensures SeenIsLogged() && log == Emit(old(log), n, CacheSidecarFailed, exits)
    {
      var failed := ShouldReportCacheSidecarFailure(n.pod);
      if failed {
        EmitOnce(n, PodKey(n.pod), CacheSidecarFailed, map[]);
      }
    }

    method ReportCompletion(n: Notice)
      requires SeenIsLogged() && ValidPod(n.pod)
      modifies `seen, `log
      ensures SeenIsLogged() && log == Emit(old(log), n, Completed, exits)
    {
      if !(n.prev.Some? && IsTerminal(n.prev.value)) && IsTerminal(n.pod) {
        var code := ReadExitCode(n.pod);
        EmitOnce(n, PodKey(n.pod), Completed, PodAttrs(n.pod)["exit_code" := code]);
      }
    }

    method ProcessPod(n: Notice)
      requires Valid() && ValidPod(n.pod)
      modifies this
      ensures Valid() && notices == old(notices) + [n]
      // in terms of the pod: what is emitted is about it, and all that it is first seen to be is
      ensures AllCarry(old(log), log, n.pod)
      ensures n.pod.phase in ["Succeeded", "Failed"] && (n.prev.Some? ==> n.prev.value.phase !in ["Succeeded", "Failed"]) ==>
                Has(log, n.pod.namespace + "/" + n.pod.name, Completed)
    {
      EmitAllCarries(log, n, exits);
      EmitAllHas(log, n, exits, PodKey(n.pod), Completed);
      FiresExact(n, Completed, exits);
      ReportStart(n);
      ReportCacheSidecar(n);
      MaybeRunnerExit(n);
      ReportCompletion(n);
      notices := notices + [n];
      assert notices[..|notices| - 1] == old(notices);
    }
  }

  // ----- at most once -----

  ghost predicate Once(log: seq<Emission>) {
    forall i, j :: 0 <= i < j < |log| ==> log[i].pod != log[j].pod || log[i].event != log[j].event
  }

  lemma EmitKeepsOnce(log: seq<Emission>, n: Notice, e: Event, exits: bool)
    requires Once(log)
    ensures Once(Emit(log, n, e, exits))
  {
  }

  /** Whatever the notifications, no event is emitted twice for a pod. */
  lemma {:induction false} AtMostOnce(ns: seq<Notice>, exits: bool)
    ensures Once(Emitted(ns, exits))
  {
    if ns != [] {
      AtMostOnce(ns[..|ns| - 1], exits);
      var log, n := Emitted(ns[..|ns| - 1], exits), ns[|ns| - 1];
      EmitKeepsOnce(log, n, Scheduled, exits);
      var a := Emit(log, n, Scheduled, exits);
      EmitKeepsOnce(a, n, Running, exits);
      var b := Emit(a, n, Running, exits);
      EmitKeepsOnce(b, n, CacheSidecarFailed, exits);
      var c := Emit(b, n, CacheSidecarFailed, exits);
      EmitKeepsOnce(c, n, RunnerExit, exits);
      EmitKeepsOnce(Emit(c, n, RunnerExit, exits), n, Completed, exits);
    }
  }

  /** The i-th notification is about the pod and calls for the event. */
  ghost predicate FiresAt(ns: seq<Notice>, i: nat, pod: string, e: Event, exits: bool)
    requires i < |ns|
  {
    PodKey(ns[i].pod) == pod && Fires(ns[i], e, exits)
  }

  /** Whatever the notifications, an event is emitted exactly if one of them calls for it. */
  lemma {:induction false} EmittedIffFired(ns: seq<Notice>, exits: bool, pod: string, e: Event)
    ensures Has(Emitted(ns, exits), pod, e) <==> exists i: nat :: i < |ns| && FiresAt(ns, i, pod, e, exits)
  {
    if ns != [] {
      var pre, n := ns[..|ns| - 1], ns[|ns| - 1];
      EmittedIffFired(pre, exits, pod, e);
      assert forall i: nat :: i < |pre| ==> FiresAt(ns, i, pod, e, exits) == FiresAt(pre, i, pod, e, exits);
      EmitAllHas(Emitted(pre, exits), n, exits, pod, e);
      assert Has(Emitted(ns, exits), pod, e) <==> Has(Emitted(pre, exits), pod, e) || FiresAt(ns, |ns| - 1, pod, e, exits);
    }
  }

  // ----- coherent streams -----

  /** The latest state of the pod in the history. */
  ghost function Latest(ns: seq<Notice>, pod: string): Option<Pod> {
    if ns == [] then None
    else if PodKey(ns[|ns| - 1].pod) == pod then Some(ns[|ns| - 1].pod)
    else Latest(ns[..|ns| - 1], pod)
  }

  /** Any interleaving of per-pod streams in which an update's earlier state is the latest one seen. */
  ghost predicate Coherent(ns: seq<Notice>) {
    forall i :: 0 <= i < |ns| && ns[i].prev.Some? ==> Latest(ns[..i], PodKey(ns[i].pod)) == ns[i].prev
  }

  /** Some notification shows the pod in a state that satisfies `f`. */
  ghost predicate Shows(ns: seq<Notice>, pod: string, f: Pod -> bool) {
    exists i :: 0 <= i < |ns| && PodKey(ns[i].pod) == pod && f(ns[i].pod)
  }

  lemma {:induction false} LatestShown(ns: seq<Notice>, pod: string)
    requires Latest(ns, pod).Some?
    ensures exists i :: 0 <= i < |ns| && ns[i].pod == Latest(ns, pod).value && PodKey(ns[i].pod) == pod
  {
    var pre, n := ns[..|ns| - 1], ns[|ns| - 1];
    if PodKey(n.pod) != pod {
      LatestShown(pre, pod);
      var i :| 0 <= i < |pre| && pre[i].pod == Latest(pre, pod).value && PodKey(pre[i].pod) == pod;
      assert ns[i] == pre[i];
    }
  }

  /** In a coherent history a state shows up exactly if some notification shows it newly. */
  lemma {:induction false} EdgeIffLevel(ns: seq<Notice>, pod: string, f: Pod -> bool)
    requires Coherent(ns)
    ensures Shows(ns, pod, f) <==> exists i :: 0 <= i < |ns| && PodKey(ns[i].pod) == pod && Newly(ns[i], f)
  {
    if Shows(ns, pod, f) {
      var i :| 0 <= i < |ns| && PodKey(ns[i].pod) == pod && f(ns[i].pod);
      if !Newly(ns[i], f) {
        var pre := ns[..i];
        LatestShown(pre, pod);
        var j :| 0 <= j < |pre| && pre[j].pod == Latest(pre, pod).value && PodKey(pre[j].pod) == pod;
        assert forall k :: 0 <= k < |pre| ==> pre[..k] == ns[..k];
        assert Shows(pre, pod, f);
        EdgeIffLevel(pre, pod, f);
        var k :| 0 <= k < |pre| && PodKey(pre[k].pod) == pod && Newly(pre[k], f);
        assert ns[k] == pre[k];
      }
    }
  }

  ghost predicate AddsTerminal(ns: seq<Notice>, pod: string) {
    exists i :: 0 <= i < |ns| && PodKey(ns[i].pod) == pod && ns[i].prev.None? && IsTerminal(ns[i].pod)
  }

  /** An event called for exactly when a state shows up is emitted exactly if the state does. */
  lemma EmittedIffShown(ns: seq<Notice>, exits: bool, pod: string, e: Event, f: Pod -> bool)
    requires Coherent(ns)
    requires forall i :: 0 <= i < |ns| && PodKey(ns[i].pod) == pod ==> Fires(ns[i], e, exits) == Newly(ns[i], f)
    ensures Has(Emitted(ns, exits), pod, e) <==> Shows(ns, pod, f)
  {
    EmittedIffFired(ns, exits, pod, e);
    EdgeIffLevel(ns, pod, f);
    if Shows(ns, pod, f) {
      var i: nat :| i < |ns| && PodKey(ns[i].pod) == pod && Newly(ns[i], f);
      assert FiresAt(ns, i, pod, e, exits);
    }
  }

  /** In a coherent history: scheduled and completed are emitted exactly for the pods ever seen so. */
  lemma EndsIffShown(ns: seq<Notice>, exits: bool, pod: string)
    requires Coherent(ns)
    ensures Has(Emitted(ns, exits), pod, Scheduled) <==> Shows(ns, pod, IsScheduled)
    ensures Has(Emitted(ns, exits), pod, Completed) <==> Shows(ns, pod, IsTerminal)
  {
    EmittedIffShown(ns, exits, pod, Scheduled, IsScheduled);
    EmittedIffShown(ns, exits, pod, Completed, IsTerminal);
  }

  /** Running is emitted exactly for the pods ever seen running or first delivered when already over. */
  lemma RunningIffShown(ns: seq<Notice>, exits: bool, pod: string)
    requires Coherent(ns)
    ensures Has(Emitted(ns, exits), pod, Running) <==> Shows(ns, pod, IsRunning) || AddsTerminal(ns, pod)
  {
    EmittedIffFired(ns, exits, pod, Running);
    EdgeIffLevel(ns, pod, IsRunning);
    if i: nat :| i < |ns| && PodKey(ns[i].pod) == pod && Newly(ns[i], IsRunning) {
      assert FiresAt(ns, i, pod, Running, exits);
    } else if AddsTerminal(ns, pod) {
      var i: nat :| i < |ns| && PodKey(ns[i].pod) == pod && ns[i].prev.None? && IsTerminal(ns[i].pod);
      assert FiresAt(ns, i, pod, Running, exits);
    }
  }

  /** The sidecar failure, in any history, is emitted exactly for the pods ever seen with it. */
  lemma SidecarIffShown(ns: seq<Notice>, exits: bool, pod: string)
    ensures Has(Emitted(ns, exits), pod, CacheSidecarFailed) <==> Shows(ns, pod, SidecarFailed)
  {
    EmittedIffFired(ns, exits, pod, CacheSidecarFailed);
    if Shows(ns, pod, SidecarFailed) {
      var i: nat :| i < |ns| && PodKey(ns[i].pod) == pod && SidecarFailed(ns[i].pod);
      assert FiresAt(ns, i, pod, CacheSidecarFailed, exits);
    }
  }

  /** The runner exit, in a coherent history, is emitted exactly for the pods ever seen in need of
      cleanup, if a callback is set and the pod's job label, which never changes, is not empty. */
  lemma RunnerExitIffShown(ns: seq<Notice>, exits: bool, pod: string, job: string)
    requires Coherent(ns)
    requires forall i :: 0 <= i < |ns| && PodKey(ns[i].pod) == pod ==> LabelOf(ns[i].pod, LABEL_GH_JOB) == job
    ensures Has(Emitted(ns, exits), pod, RunnerExit) <==> exits && job != "" && Shows(ns, pod, NeedsCleanup)
  {
    if exits && job != "" {
      EmittedIffShown(ns, exits, pod, RunnerExit, NeedsCleanup);
    } else {
      EmittedIffFired(ns, exits, pod, RunnerExit);
    }
  }

  // ----- running after completed -----

  /** No Running of the pod after its Completed. */
  ghost predicate InOrder(log: seq<Emission>, pod: string) {
    forall i, j :: 0 <= i < j < |log| && log[i].pod == pod && log[i].event == Completed ==> log[j].pod != pod || log[j].event != Running
  }

  /** The i-th notification calls for Completed, the j-th for Running, and none up to the i-th did. */
  ghost predicate Late(ns: seq<Notice>, exits: bool, pod: string, i: nat, j: nat) {
    && i < j < |ns|
    && FiresAt(ns, i, pod, Completed, exits) && FiresAt(ns, j, pod, Running, exits)
    && forall k: nat :: k <= i ==> !FiresAt(ns, k, pod, Running, exits)
  }

  ghost predicate LateRunning(ns: seq<Notice>, exits: bool, pod: string) {
    exists i: nat, j: nat :: Late(ns, exits, pod, i, j)
  }

  lemma EmitInOrder(log: seq<Emission>, n: Notice, e: Event, exits: bool, pod: string)
    requires InOrder(log, pod)
    requires e == Running && PodKey(n.pod) == pod && Fires(n, e, exits) ==> !Has(log, pod, Completed) || Has(log, pod, Running)
    ensures InOrder(Emit(log, n, e, exits), pod)
  {
  }

  lemma EmitAllInOrder(log: seq<Emission>, n: Notice, exits: bool, pod: string)
    requires InOrder(log, pod)
    requires PodKey(n.pod) == pod && Fires(n, Running, exits) ==> !Has(log, pod, Completed) || Has(log, pod, Running)
    ensures InOrder(EmitAll(log, n, exits), pod)
  {
    var a := Emit(log, n, Scheduled, exits);
    EmitHas(log, n, Scheduled, exits, pod, Completed);
    EmitHas(log, n, Scheduled, exits, pod, Running);
    EmitInOrder(log, n, Scheduled, exits, pod);
    EmitInOrder(a, n, Running, exits, pod);
    var b := Emit(a, n, Running, exits);
    EmitInOrder(b, n, CacheSidecarFailed, exits, pod);
    var c := Emit(b, n, CacheSidecarFailed, exits);
    EmitInOrder(c, n, RunnerExit, exits, pod);
    EmitInOrder(Emit(c, n, RunnerExit, exits), n, Completed, exits, pod);
  }

  /** What was out of order stays so, and a first Running after a Completed puts the log out of order. */
  lemma EmitAllOutOfOrder(log: seq<Emission>, n: Notice, exits: bool, pod: string)
    requires || !InOrder(log, pod)
             || (Has(log, pod, Completed) && !Has(log, pod, Running) && PodKey(n.pod) == pod && Fires(n, Running, exits))
    ensures !InOrder(EmitAll(log, n, exits), pod)
  {
    var all := EmitAll(log, n, exits);
    assert log <= all;
    assert forall k :: 0 <= k < |log| ==> all[k] == log[k];
    if InOrder(log, pod) {
      EmitAllHas(log, n, exits, pod, Running);
      var i :| 0 <= i < |log| && log[i].pod == pod && log[i].event == Completed;
      var j :| 0 <= j < |all| && all[j].pod == pod && all[j].event == Running;
      assert all[i].event == Completed && all[i].pod == pod;
    }
  }

  /** A late Running of a history is one of the history before, or calls for it in the last place. */
  lemma LateStep(ns: seq<Notice>, exits: bool, pod: string)
    requires ns != []
    ensures var pre, n := ns[..|ns| - 1], ns[|ns| - 1];
            var log := Emitted(pre, exits);
            LateRunning(ns, exits, pod) <==>
              || LateRunning(pre, exits, pod)
              || (Has(log, pod, Completed) && !Has(log, pod, Running) && PodKey(n.pod) == pod && Fires(n, Running, exits))
  {
    var pre, last := ns[..|ns| - 1], |ns| - 1;
    EmittedIffFired(pre, exits, pod, Completed);
    EmittedIffFired(pre, exits, pod, Running);
    forall i: nat, e | i < last ensures FiresAt(pre, i, pod, e, exits) == FiresAt(ns, i, pod, e, exits) {
    }
    if i: nat, j: nat :| Late(ns, exits, pod, i, j) {
      if j < last {
        assert Late(pre, exits, pod, i, j);
      } else if k: nat :| k < last && FiresAt(pre, k, pod, Running, exits) {
        assert Late(pre, exits, pod, i, k);
      }
    }
    if i: nat, j: nat :| Late(pre, exits, pod, i, j) {
      assert Late(ns, exits, pod, i, j);
    }
    if i: nat :| i < last && FiresAt(pre, i, pod, Completed, exits) {
      if !Has(Emitted(pre, exits), pod, Running) && FiresAt(ns, last, pod, Running, exits) {
        assert Late(ns, exits, pod, i, last);
      }
    }
  }

  /** Whatever the notifications: Running is emitted after Completed if and only if some notification
      calls for Completed before any called for Running, and a later one calls for Running. */
  lemma {:induction false} OrderExact(ns: seq<Notice>, exits: bool, pod: string)
    ensures InOrder(Emitted(ns, exits), pod) <==> !LateRunning(ns, exits, pod)
  {
    if ns != [] {
      var pre, n := ns[..|ns| - 1], ns[|ns| - 1];
      var log := Emitted(pre, exits);
      OrderExact(pre, exits, pod);
      LateStep(ns, exits, pod);
      if LateRunning(ns, exits, pod) {
        EmitAllOutOfOrder(log, n, exits, pod);
      } else {
        EmitAllInOrder(log, n, exits, pod);
      }
    }
  }

  // The same in terms of pod states and of the deliveries as new.

  /** The notification shows the pod running, or delivers it as new when it is already over. */
  predicate Starts(n: Notice) { IsRunning(n.pod) || (n.prev.None? && IsTerminal(n.pod)) }

  /** The pod is over at i, started at j, and never started up to i. */
  ghost predicate StartsLate(ns: seq<Notice>, pod: string, i: nat, j: nat) {
    && i < j < |ns| && PodKey(ns[i].pod) == pod && PodKey(ns[j].pod) == pod
    && IsTerminal(ns[i].pod) && Starts(ns[j])
    && forall k: nat :: k <= i && PodKey(ns[k].pod) == pod ==> !Starts(ns[k])
  }

  lemma CoherentPrefix(ns: seq<Notice>, m: nat)
    requires Coherent(ns) && m <= |ns|
    ensures Coherent(ns[..m])
  {
    assert forall i :: 0 <= i < m ==> ns[..m][i] == ns[i] && ns[..m][..i] == ns[..i];
  }

  /** Up to any point of a coherent history: Running was called for if and only if the pod started,
      Completed if and only if it was over. */
  lemma FiredIffSeen(ns: seq<Notice>, exits: bool, pod: string, m: nat)
    requires Coherent(ns) && m <= |ns|
    ensures (exists k: nat :: k < m && FiresAt(ns, k, pod, Running, exits)) <==> exists k: nat :: k < m && PodKey(ns[k].pod) == pod && Starts(ns[k])
    ensures (exists k: nat :: k < m && FiresAt(ns, k, pod, Completed, exits)) <==> exists k: nat :: k < m && PodKey(ns[k].pod) == pod && IsTerminal(ns[k].pod)
  {
    var pre := ns[..m];
    CoherentPrefix(ns, m);
    EdgeIffLevel(pre, pod, IsRunning);
    EdgeIffLevel(pre, pod, IsTerminal);
    assert forall k: nat :: k < m ==> pre[k] == ns[k];
    if k: nat :| k < m && PodKey(ns[k].pod) == pod && Starts(ns[k]) {
      if IsRunning(ns[k].pod) {
        assert IsRunning(pre[k].pod) && PodKey(pre[k].pod) == pod;
        var e: nat :| e < m && PodKey(pre[e].pod) == pod && Newly(pre[e], IsRunning);
        assert FiresAt(ns, e, pod, Running, exits);
      } else {
        assert FiresAt(ns, k, pod, Running, exits);
      }
    }
    if k: nat :| k < m && FiresAt(ns, k, pod, Running, exits) {
      assert Starts(ns[k]);
    }
    if k: nat :| k < m && PodKey(ns[k].pod) == pod && IsTerminal(ns[k].pod) {
      assert IsTerminal(pre[k].pod) && PodKey(pre[k].pod) == pod;
      var e: nat :| e < m && PodKey(pre[e].pod) == pod && Newly(pre[e], IsTerminal);
      assert FiresAt(ns, e, pod, Completed, exits);
    }
  }

  /** In a coherent history Running is emitted after Completed if and only if the pod is seen over
      before it ever started, and starts later. */
  lemma CoherentOrderExact(ns: seq<Notice>, exits: bool, pod: string)
    requires Coherent(ns)
    ensures InOrder(Emitted(ns, exits), pod) <==> !exists i: nat, j: nat :: StartsLate(ns, pod, i, j)
  {
    OrderExact(ns, exits, pod);
    if i: nat, j: nat :| Late(ns, exits, pod, i, j) {
      FiredIffSeen(ns, exits, pod, i + 1);
      assert Starts(ns[j]) && IsTerminal(ns[i].pod);
      assert StartsLate(ns, pod, i, j);
    }
    if i: nat, j: nat :| StartsLate(ns, pod, i, j) {
      FiredIffSeen(ns, exits, pod, i + 1);
      FiredIffSeen(ns, exits, pod, j + 1);
      var c: nat :| c < i + 1 && FiresAt(ns, c, pod, Completed, exits);
      var r: nat :| r < j + 1 && FiresAt(ns, r, pod, Running, exits);
      assert Late(ns, exits, pod, c, r);
    }
  }

  /** Once over, a pod stays over, until it is delivered as new. */
  ghost predicate Steady(ns: seq<Notice>) {
    forall i :: 0 <= i < |ns| && ns[i].prev.Some? && IsTerminal(ns[i].prev.value) ==> IsTerminal(ns[i].pod)
  }

  /** The pod is delivered as new at a. */
  ghost predicate AddAt(ns: seq<Notice>, pod: string, a: nat) {
    a < |ns| && PodKey(ns[a].pod) == pod && ns[a].prev.None?
  }

  /** In a coherent and steady history, a pod over at i and not delivered as new since is over. */
  lemma {:induction false} OverUntilAdded(ns: seq<Notice>, pod: string, i: nat, m: nat)
    requires Coherent(ns) && Steady(ns) && i < m <= |ns| && PodKey(ns[i].pod) == pod && IsTerminal(ns[i].pod)
    requires forall a: nat :: i < a < m ==> !AddAt(ns, pod, a)
    ensures Latest(ns[..m], pod).Some? && IsTerminal(Latest(ns[..m], pod).value)
    ensures PodKey(ns[m - 1].pod) == pod ==> IsTerminal(ns[m - 1].pod)
  {
    assert ns[..m][..m - 1] == ns[..m - 1] && ns[..m][m - 1] == ns[m - 1];
    if m - 1 > i {
      OverUntilAdded(ns, pod, i, m - 1);
      assert !AddAt(ns, pod, m - 1);
    }
  }

  /** In a coherent and steady history a late start needs a second delivery as new. */
  lemma LateStartNeedsAdd(ns: seq<Notice>, pod: string, i: nat, j: nat)
    requires Coherent(ns) && Steady(ns) && StartsLate(ns, pod, i, j)
    ensures exists a: nat :: i < a <= j && AddAt(ns, pod, a)
  {
    if !AddAt(ns, pod, j) && forall a: nat :: i < a < j ==> !AddAt(ns, pod, a) {
      OverUntilAdded(ns, pod, i, j + 1);
    }
  }

  /** Exactly when order is lost: the pod, over without having started, is delivered as new, and with
      that delivery or after it starts. */
  lemma SteadyOrderExact(ns: seq<Notice>, exits: bool, pod: string)
    requires Coherent(ns) && Steady(ns)
    ensures InOrder(Emitted(ns, exits), pod) <==>
            !exists i: nat, a: nat, j: nat :: i < a <= j && AddAt(ns, pod, a) && StartsLate(ns, pod, i, j)
  {
    CoherentOrderExact(ns, exits, pod);
    if i: nat, j: nat :| StartsLate(ns, pod, i, j) {
      LateStartNeedsAdd(ns, pod, i, j);
    }
  }

  /** A pod with a notification has one that delivered it as new. */
  lemma {:induction false} FirstIsAdd(ns: seq<Notice>, pod: string)
    requires Coherent(ns) && Latest(ns, pod).Some?
    ensures exists i :: 0 <= i < |ns| && PodKey(ns[i].pod) == pod && ns[i].prev.None?
  {
    var pre, n := ns[..|ns| - 1], ns[|ns| - 1];
    CoherentPrefix(ns, |ns| - 1);
    if PodKey(n.pod) != pod || n.prev.Some? {
      FirstIsAdd(pre, pod);
      var i :| 0 <= i < |pre| && PodKey(pre[i].pod) == pod && pre[i].prev.None?;
      assert ns[i] == pre[i];
    }
  }

  /** What is seen at i was delivered as new by then. */
  lemma AddedBy(ns: seq<Notice>, i: nat)
    requires Coherent(ns) && i < |ns|
    ensures exists b: nat :: b <= i && AddAt(ns, PodKey(ns[i].pod), b)
  {
    var pre, pod := ns[..i + 1], PodKey(ns[i].pod);
    CoherentPrefix(ns, i + 1);
    assert pre[|pre| - 1] == ns[i];
    FirstIsAdd(pre, pod);
    var b: nat :| b < |pre| && PodKey(pre[b].pod) == pod && pre[b].prev.None?;
    assert AddAt(ns, pod, b);
  }

  /** No pod is delivered as new twice. */
  ghost predicate OneAdd(ns: seq<Notice>) {
    forall pod, a: nat, b: nat :: a < b && AddAt(ns, pod, a) ==> !AddAt(ns, pod, b)
  }

  /** So if pods, once over, stay over and none is delivered as new twice, Running is never emitted
      after Completed. */
  lemma RunningNeverFollowsCompleted(ns: seq<Notice>, exits: bool, pod: string)
    requires Coherent(ns) && Steady(ns) && OneAdd(ns)
    ensures InOrder(Emitted(ns, exits), pod)
  {
    SteadyOrderExact(ns, exits, pod);
    if i: nat, a: nat, j: nat :| i < a <= j && AddAt(ns, pod, a) && StartsLate(ns, pod, i, j) {
      AddedBy(ns, i);
    }
  }

  /** And a pod that ends without being seen running, delivered as new a second time (by an informer
      that lost its cache), has its Running emitted after its Completed, coherent and steady as it is. */
  lemma SecondAddBreaksOrder(p: Pod, q: Pod, exits: bool)
    requires PodKey(p) == PodKey(q) && !IsTerminal(p) && !IsRunning(p) && IsTerminal(q)
    ensures var ns := [Notice(p, None), Notice(q, Some(p)), Notice(q, None)];
            Coherent(ns) && Steady(ns) && !InOrder(Emitted(ns, exits), PodKey(p))
  {
    var ns, key := [Notice(p, None), Notice(q, Some(p)), Notice(q, None)], PodKey(p);
    assert ns[..1] == [Notice(p, None)] && Latest(ns[..1], key) == Some(p);
    assert StartsLate(ns, key, 1, 2);
    CoherentOrderExact(ns, exits, key);
  }
}
