/** Pods as the API server reports them, and what their runner container says about cleanup
    (internal/k8sjob/podstatus.go). */
module Pods {
  import opened Options

  const LABEL_RUN := "gha-scheduler.run_id"
  const LABEL_JOB := "gha-scheduler.job_id"
  const LABEL_GH_JOB := "gha-scheduler.gh_job_id"

  /** The three parts of a container state, each present or not: the waiting reason, running, and
      the exit code. */
  datatype ContainerState = ContainerState(waiting: Option<string>, running: bool, terminated: Option<int>)

  datatype ContainerStatus = ContainerStatus(name: string, state: ContainerState, ready: bool, restarts: int)

  datatype Condition = Condition(kind: string, status: string)

  datatype Pod = Pod(
    namespace: string, name: string, labels: map<string, string>,
    containers: seq<string>, phase: string,
    conditions: seq<Condition>, statuses: seq<ContainerStatus>)

  /** Exit codes are 32-bit integers. */
  predicate ValidPod(pod: Pod) {
    forall i :: 0 <= i < |pod.statuses| && pod.statuses[i].state.terminated.Some? ==>
      -0x8000_0000 <= pod.statuses[i].state.terminated.value < 0x8000_0000
  }

  function LabelOf(pod: Pod, key: string): string { if key in pod.labels then pod.labels[key] else "" }

  /** The index of the first container status with the name, or the number of statuses. */
  function FirstNamed(statuses: seq<ContainerStatus>, name: string): (i: nat)
    ensures i <= |statuses| && (i < |statuses| ==> statuses[i].name == name)
    ensures forall j :: 0 <= j < i ==> statuses[j].name != name
  {
    if statuses == [] || statuses[0].name == name then 0 else FirstNamed(statuses[1..], name) + 1
  }

  function RunnerContainerState(pod: Pod): Option<ContainerState> {
    var i := FirstNamed(pod.statuses, "runner");
    if i < |pod.statuses| then Some(pod.statuses[i].state) else None
  }

  predicate Stuck(reason: string) {
    || reason == "CrashLoopBackOff" || reason == "ImagePullBackOff" || reason == "ErrImagePull"
    || reason == "CreateContainerConfigError" || reason == "InvalidImageName"
  }

  function RunnerCleanupReason(state: ContainerState): string {
    if state.terminated.Some? then "runner_terminated"
    else if state.waiting.Some? && Stuck(state.waiting.value) then "runner_stuck"
    else ""
  }

  function PodRunnerCleanupReason(pod: Pod): string {
    var s := RunnerContainerState(pod);
    if s.Some? then RunnerCleanupReason(s.value) else ""
  }

  /** The container waits, for one of the reasons that do not go away. */
  predicate WaitsInVain(state: ContainerState) {
    state.waiting.Some?
    && state.waiting.value in ["CrashLoopBackOff", "ImagePullBackOff", "ErrImagePull", "CreateContainerConfigError", "InvalidImageName"]
  }

  /** The first status of the runner container has this state. */
  predicate RunnerIn(pod: Pod, state: ContainerState) {
    exists i :: 0 <= i < |pod.statuses| && pod.statuses[i].name == "runner" && pod.statuses[i].state == state
      && forall k :: 0 <= k < i ==> pod.statuses[k].name != "runner"
  }

  /** A pod is to be cleaned up exactly if its runner container, going by its first status, is terminated
      or waits in vain; the two are told apart. */
  lemma CleanupExact(pod: Pod)
    ensures PodRunnerCleanupReason(pod) ==
            if exists s :: RunnerIn(pod, s) && s.terminated.Some? then "runner_terminated"
            else if exists s :: RunnerIn(pod, s) && WaitsInVain(s) then "runner_stuck"
            else ""
  {
    var i := FirstNamed(pod.statuses, "runner");
    if i < |pod.statuses| {
      var s := pod.statuses[i].state;
      assert RunnerIn(pod, s);
      assert forall s' :: RunnerIn(pod, s') ==> s' == s;
    }
  }
}
