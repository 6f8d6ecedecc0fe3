// controller.go:906-931, 976-999 and 1002-1046: what is said of a service that
// cannot start.
module Blame {
  import opened Text
  import opened Types
  import opened Diagnosis

  // ----- a container -----

  // A crash loop is told by how the container last exited, any other wait by
  // its own reason and message, and what is caught running by its restarts.
  predicate Tells(cs: ContainerStatus, isInit: bool, d: Detail) {
    if Stuck(cs) then
      if cs.state.wait == CrashLoopBackOff && cs.lastExit.Some? then
        d == CrashLooping(cs.name, isInit, cs.lastExit.value)
      else d == Blocked(cs.state.wait, cs.state.message)
    else cs.lastExit.Some? && d == Restarting(cs.name, isInit, cs.lastExit.value, cs.restarts)
  }

  predicate FirstBroken(statuses: seq<ContainerStatus>, i: nat) {
    i < |statuses| && Broken(statuses[i]) && forall j :: 0 <= j < i ==> !Broken(statuses[j])
  }

  lemma ProblemTells(cs: ContainerStatus, isInit: bool)
    requires Broken(cs)
    ensures ContainerProblem(cs, isInit).Some? && Tells(cs, isInit, ContainerProblem(cs, isInit).value)
  {
  }

  lemma {:induction false} FirstTells(statuses: seq<ContainerStatus>, isInit: bool, d: Detail) returns (i: nat)
    requires FirstContainer(statuses, isInit) == Some(d)
    ensures FirstBroken(statuses, i) && Tells(statuses[i], isInit, d)
  {
    hide Broken, Tells, ContainerProblem;
    ProblemExactly(statuses[0], isInit);
    if ContainerProblem(statuses[0], isInit).Some? {
      ProblemTells(statuses[0], isInit);
      i := 0;
    } else {
      var j := FirstTells(statuses[1..], isInit, d);
      i := j + 1;
      forall k | 0 <= k < i ensures !Broken(statuses[k]) {
        assert k > 0 ==> statuses[k] == statuses[1..][k - 1];
      }
    }
  }

  // ----- a pod -----

  predicate Unplaced(c: PodCondition) {
    c.scheduled && c.status == False && c.unschedulable
  }

  predicate FirstUnplaced(conditions: seq<PodCondition>, i: nat) {
    i < |conditions| && Unplaced(conditions[i]) && forall j :: 0 <= j < i ==> !Unplaced(conditions[j])
  }

  lemma {:induction false} RefusalTells(conditions: seq<PodCondition>, d: Detail) returns (i: nat)
    requires FirstRefusal(conditions) == Some(d)
    ensures FirstUnplaced(conditions, i) && d == Unschedulable(conditions[i].message)
  {
    if Refused(conditions[0]) {
      i := 0;
    } else {
      var j := RefusalTells(conditions[1..], d);
      i := j + 1;
      forall k | 0 <= k < i ensures !Unplaced(conditions[k]) {
        assert k > 0 ==> conditions[k] == conditions[1..][k - 1];
      }
    }
  }

  // That it cannot be placed comes first, then its init containers, then the
  // others; of several the first.
  ghost predicate TellsPod(pod: Pod, d: Detail) {
    if CannotBePlaced(pod) then
      exists i: nat :: FirstUnplaced(pod.conditions, i) && d == Unschedulable(pod.conditions[i].message)
    else if exists cs :: cs in pod.initContainers && Broken(cs) then
      exists i: nat :: FirstBroken(pod.initContainers, i) && Tells(pod.initContainers[i], true, d)
    else exists i: nat :: FirstBroken(pod.containers, i) && Tells(pod.containers[i], false, d)
  }

  lemma PodTells(pod: Pod, d: Detail)
    requires PodProblem(pod) == Some(d)
    ensures TellsPod(pod, d)
  {
    FirstRefusalExactly(pod.conditions);
    FirstContainerExactly(pod.initContainers, true);
    FirstContainerExactly(pod.containers, false);
    hide FirstRefusal, FirstContainer, Broken, Tells, FirstBroken, FirstUnplaced;
    if FirstRefusal(pod.conditions).Some? {
      var i := RefusalTells(pod.conditions, d);
    } else if FirstContainer(pod.initContainers, true).Some? {
      var i := FirstTells(pod.initContainers, true, d);
    } else {
      var i := FirstTells(pod.containers, false, d);
    }
  }

  // ----- a rollout -----

  predicate Failure(c: RolloutCondition) {
    c.kind == ReplicaFailureCondition && c.status == True
  }

  predicate FirstFailure(conditions: seq<RolloutCondition>, i: nat) {
    i < |conditions| && Failure(conditions[i]) && forall j :: 0 <= j < i ==> !Failure(conditions[j])
  }

  lemma {:induction false} FailureTells(conditions: seq<RolloutCondition>, c: RolloutCondition) returns (i: nat)
    requires ReplicaFailure(conditions) == Some(c)
    ensures FirstFailure(conditions, i) && conditions[i] == c
  {
    if Failure(conditions[0]) {
      i := 0;
    } else {
      var j := FailureTells(conditions[1..], c);
      i := j + 1;
      forall k | 0 <= k < i ensures !Failure(conditions[k]) {
        assert k > 0 ==> conditions[k] == conditions[1..][k - 1];
      }
    }
  }

  // Why no pods can be created, if that is so; otherwise the probe, unless
  // nothing is known of the pods.
  ghost predicate TellsRollout(r: Rollout, podsKnown: bool, d: Detail) {
    if NoPodsAllowed(r) then
      exists i: nat :: FirstFailure(r.conditions, i) &&
        d == Stalled(CannotCreatePods(r.conditions[i].reason, r.conditions[i].message))
    else d == Stalled(if podsKnown then ProbeNotPassing else PodsUnknown)
  }

  lemma RolloutTells(r: Rollout, podsKnown: bool)
    ensures TellsRollout(r, podsKnown, StalledDetail(r, podsKnown))
  {
    ReplicaFailureExactly(r.conditions);
    hide ReplicaFailure, FirstFailure;
    if ReplicaFailure(r.conditions).Some? {
      var i := FailureTells(r.conditions, ReplicaFailure(r.conditions).value);
    }
  }

  // ----- a service -----

  predicate FirstPod(pods: seq<Pod>, i: nat, name: string) {
    i < |pods| && BrokenPod(pods[i], name) && forall j :: 0 <= j < i ==> !BrokenPod(pods[j], name)
  }

  predicate FirstRollout(rollouts: seq<Rollout>, i: nat, name: string) {
    i < |rollouts| && Overdue(rollouts[i], name) && forall j :: 0 <= j < i ==> !Overdue(rollouts[j], name)
  }

  lemma {:induction false} PodDetailTells(pods: seq<Pod>, n: nat, name: string, d: Detail) returns (i: nat)
    requires n <= |pods| && name != "" && PodDetail(pods, n, name) == Some(d)
    ensures FirstPod(pods, i, name) && TellsPod(pods[i], d)
  {
    hide PodProblem, BrokenPod, TellsPod;
    PodDetailExact(pods, n - 1, name);
    if PodDetail(pods, n - 1, name).Some? {
      i := PodDetailTells(pods, n - 1, name, d);
    } else {
      i := n - 1;
      PodTells(pods[i], d);
      forall j | 0 <= j < n ensures PodSpeaksFor(pods[j], name) <==> BrokenPod(pods[j], name) {
        PodSpeaksExactly(pods[j], name);
      }
      hide PodSpeaksFor;
    }
  }

  lemma {:induction false} RolloutDetailTells(rollouts: seq<Rollout>, n: nat, name: string, podsKnown: bool, d: Detail)
    returns (i: nat)
    requires n <= |rollouts| && name != "" && RolloutDetail(rollouts, n, name, podsKnown) == Some(d)
    ensures FirstRollout(rollouts, i, name) && TellsRollout(rollouts[i], podsKnown, d)
  {
    hide StalledDetail, Overdue, TellsRollout;
    RolloutDetailExact(rollouts, n - 1, name, podsKnown);
    if RolloutDetail(rollouts, n - 1, name, podsKnown).Some? {
      i := RolloutDetailTells(rollouts, n - 1, name, podsKnown, d);
    } else {
      i := n - 1;
      RolloutTells(rollouts[i], podsKnown);
      forall j | 0 <= j < n ensures RolloutSpeaksFor(rollouts[j], name) <==> Overdue(rollouts[j], name) {
        RolloutSpeaksExactly(rollouts[j], name);
      }
      hide RolloutSpeaksFor;
    }
  }

  // What is said of a service, from the data of the listings alone.
  ghost predicate TellsService(seen: Observation, name: string, d: Detail) {
    if seen.pods.Some? && exists pod :: pod in seen.pods.value && BrokenPod(pod, name) then
      exists i: nat :: FirstPod(seen.pods.value, i, name) && TellsPod(seen.pods.value[i], d)
    else
      seen.rollouts.Some? && exists i: nat ::
        FirstRollout(seen.rollouts.value, i, name) && TellsRollout(seen.rollouts.value[i], seen.pods.Some?, d)
  }

  // A broken pod is told before a Deployment that is overdue, and the first in
  // the listing before the others.
  lemma DetailTells(seen: Observation, name: string, d: Detail)
    requires ServiceDetail(seen, name) == Some(d)
    ensures name != "" && TellsService(seen, name, d)
  {
    hide PodDetail, RolloutDetail, BrokenPod, Overdue, TellsPod, TellsRollout, FirstPod, FirstRollout;
    var pods := match seen.pods case Some(pods) => pods case None => [];
    var rollouts := match seen.rollouts case Some(rollouts) => rollouts case None => [];
    PodsExactly(pods, name);
    RolloutsExactly(rollouts, name, seen.pods.Some?);
    if PodDetail(pods, |pods|, name).Some? {
      var i := PodDetailTells(pods, |pods|, name, d);
    } else {
      var i := RolloutDetailTells(rollouts, |rollouts|, name, seen.pods.Some?, d);
    }
  }

  // Every entry of a report names a service of the spec something is wrong
  // with, and says what.
  lemma {:induction false} ReportTells(services: seq<ServiceSpec>, n: nat, seen: Observation, p: Problem)
    requires n <= |services| && p in Report(services, n, seen)
    ensures (exists k :: 0 <= k < n && services[k].name == p.service)
    ensures Spoken(seen, p.service) && TellsService(seen, p.service, p.detail)
  {
    hide ServiceDetail, TellsService, Spoken;
    if p in Report(services, n - 1, seen) {
      ReportTells(services, n - 1, seen, p);
    } else {
      DetailTells(seen, p.service, p.detail);
      DetailExact(seen, p.service);
    }
  }
}
