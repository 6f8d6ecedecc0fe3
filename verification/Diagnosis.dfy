// controller.go:778-1046: which services cannot start, and why.
module Diagnosis {
  import opened Text
  import opened Types

  // ----- containers -----

  datatype ContainerState = NoState | Waiting(wait: WaitReason, message: string) | Running | Terminated(exitCode: int)

  datatype ContainerStatus = ContainerStatus(
    name: string,
    ready: bool,
    state: ContainerState,
    lastExit: Option<int>,
    restarts: nat)

  // controller.go:782-792
  predicate Blocking(wait: WaitReason) {
    !wait.OtherWait?
  }

  // controller.go:1002-1046
  function ContainerProblem(cs: ContainerStatus, isInit: bool): Option<Detail> {
    if cs.ready then None
    else if cs.state.Waiting? && Blocking(cs.state.wait) then
      if cs.lastExit.Some? && cs.state.wait == CrashLoopBackOff then
        Some(CrashLooping(cs.name, isInit, cs.lastExit.value))
      else Some(Blocked(cs.state.wait, cs.state.message))
    else if cs.state == Terminated(0) then None
    else if cs.restarts > 0 && cs.lastExit.Some? && cs.lastExit.value != 0 then
      Some(Restarting(cs.name, isInit, cs.lastExit.value, cs.restarts))
    else None
  }

  // ----- pods -----

  datatype PodCondition = PodCondition(scheduled: bool, status: Truth, unschedulable: bool, message: string)

  datatype Pod = Pod(
    terminating: bool,
    labels: Labels,
    conditions: seq<PodCondition>,
    initContainers: seq<ContainerStatus>,
    containers: seq<ContainerStatus>)

  predicate Refused(c: PodCondition) {
    c.scheduled && c.status == False && c.unschedulable
  }

  function FirstRefusal(conditions: seq<PodCondition>): Option<Detail> {
    if conditions == [] then None
    else if Refused(conditions[0]) then Some(Unschedulable(conditions[0].message))
    else FirstRefusal(conditions[1..])
  }

  function FirstContainer(statuses: seq<ContainerStatus>, isInit: bool): Option<Detail> {
    if statuses == [] then None
    else if ContainerProblem(statuses[0], isInit).Some? then ContainerProblem(statuses[0], isInit)
    else FirstContainer(statuses[1..], isInit)
  }

  // controller.go:976-999
  function PodProblem(pod: Pod): Option<Detail> {
    if FirstRefusal(pod.conditions).Some? then FirstRefusal(pod.conditions)
    else if FirstContainer(pod.initContainers, true).Some? then FirstContainer(pod.initContainers, true)
    else FirstContainer(pod.containers, false)
  }

  // ----- rollouts -----

  datatype RolloutConditionType = ProgressingCondition | ReplicaFailureCondition | OtherCondition

  datatype RolloutCondition = RolloutCondition(
    kind: RolloutConditionType, status: Truth, deadlineExceeded: bool, reason: string, message: string)

  datatype Rollout = Rollout(
    labels: Labels,
    generation: nat,
    observedGeneration: nat,
    updatedReplicas: nat,
    conditions: seq<RolloutCondition>)

  // controller.go:923-931
  function ReplicaFailure(conditions: seq<RolloutCondition>): Option<RolloutCondition> {
    if conditions == [] then None
    else if conditions[0].kind == ReplicaFailureCondition && conditions[0].status == True then Some(conditions[0])
    else ReplicaFailure(conditions[1..])
  }

  // controller.go:935-972
  predicate ProgressDeadlineExceeded(d: Rollout) {
    && d.observedGeneration >= d.generation
    && (d.updatedReplicas == 0 ==> ReplicaFailure(d.conditions).Some?)
    && exists c :: c in d.conditions && c.kind == ProgressingCondition && c.status == False && c.deadlineExceeded
  }

  // controller.go:906-919
  function StalledDetail(d: Rollout, podsKnown: bool): Detail {
    match ReplicaFailure(d.conditions)
    case Some(c) => Stalled(CannotCreatePods(c.reason, c.message))
    case None => Stalled(if podsKnown then ProbeNotPassing else PodsUnknown)
  }

  // ----- services -----

  // What the two listings returned; None for one that failed.
  datatype Observation = Observation(pods: Option<seq<Pod>>, rollouts: Option<seq<Rollout>>)

  predicate PodSpeaksFor(pod: Pod, name: string) {
    !pod.terminating && Lookup(pod.labels, Label.Service) == name && PodProblem(pod).Some?
  }

  predicate RolloutSpeaksFor(d: Rollout, name: string) {
    Lookup(d.labels, Label.Service) == name && ProgressDeadlineExceeded(d)
  }

  // The problem of the first pod that speaks for the service.
  function PodDetail(pods: seq<Pod>, n: nat, name: string): Option<Detail>
    requires n <= |pods|
  {
    if n == 0 then None
    else if PodDetail(pods, n - 1, name).Some? then PodDetail(pods, n - 1, name)
    else if PodSpeaksFor(pods[n - 1], name) then PodProblem(pods[n - 1])
    else None
  }

  function RolloutDetail(rollouts: seq<Rollout>, n: nat, name: string, podsKnown: bool): Option<Detail>
    requires n <= |rollouts|
  {
    if n == 0 then None
    else if RolloutDetail(rollouts, n - 1, name, podsKnown).Some? then RolloutDetail(rollouts, n - 1, name, podsKnown)
    else if RolloutSpeaksFor(rollouts[n - 1], name) then Some(StalledDetail(rollouts[n - 1], podsKnown))
    else None
  }

  // What is reported of a service. A label that is absent or empty names none.
  function ServiceDetail(seen: Observation, name: string): Option<Detail> {
    var pods := match seen.pods case Some(pods) => pods case None => [];
    var rollouts := match seen.rollouts case Some(rollouts) => rollouts case None => [];
    if name == "" then None
    else if PodDetail(pods, |pods|, name).Some? then PodDetail(pods, |pods|, name)
    else RolloutDetail(rollouts, |rollouts|, name, seen.pods.Some?)
  }

  function Report(services: seq<ServiceSpec>, n: nat, seen: Observation): seq<Problem>
    requires n <= |services|
  {
    if n == 0 then []
    else
      Report(services, n - 1, seen) +
      match ServiceDetail(seen, services[n - 1].name)
      case Some(d) => [Problem(services[n - 1].name, d)]
      case None => []
  }

  // Lines 815-827.
  method PodPass(pods: seq<Pod>) returns (byService: map<string, Detail>)
    ensures forall name :: name in byService <==> name != "" && PodDetail(pods, |pods|, name).Some?
    ensures forall name :: name in byService ==> Some(byService[name]) == PodDetail(pods, |pods|, name)
  {
    byService := map[];
    for i := 0 to |pods|
      invariant forall name :: name in byService <==> name != "" && PodDetail(pods, i, name).Some?
      invariant forall name :: name in byService ==> Some(byService[name]) == PodDetail(pods, i, name)
    {
      var pod := pods[i];
      if pod.terminating {
        continue;
      }
      var svc := Lookup(pod.labels, Label.Service);
      if svc == "" || svc in byService {
        continue;
      }
      var detail := PodProblem(pod);
      if detail.Some? {
        byService := byService[svc := detail.value];
      }
    }
  }

  // Lines 865-896.
  method AddStalledServices(before: map<string, Detail>, rollouts: seq<Rollout>, podsKnown: bool)
    returns (byService: map<string, Detail>)
    ensures forall name :: name in byService <==>
                           name in before || (name != "" && RolloutDetail(rollouts, |rollouts|, name, podsKnown).Some?)
    ensures forall name :: name in before ==> byService[name] == before[name]
    ensures forall name :: name in byService && name !in before ==>
                           Some(byService[name]) == RolloutDetail(rollouts, |rollouts|, name, podsKnown)
  {
    byService := before;
    for i := 0 to |rollouts|
      invariant forall name :: name in byService <==>
                               name in before || (name != "" && RolloutDetail(rollouts, i, name, podsKnown).Some?)
      invariant forall name :: name in before ==> byService[name] == before[name]
      invariant forall name :: name in byService && name !in before ==>
                               Some(byService[name]) == RolloutDetail(rollouts, i, name, podsKnown)
    {
      var d := rollouts[i];
      var svc := Lookup(d.labels, Label.Service);
      if svc == "" || svc in byService {
        continue;
      }
      if !ProgressDeadlineExceeded(d) {
        continue;
      }
      byService := byService[svc := StalledDetail(d, podsKnown)];
    }
  }

  // Lines 797-856.
  method WorkloadProblems(services: seq<ServiceSpec>, seen: Observation) returns (out: seq<Problem>)
    ensures out == Report(services, |services|, seen)
  {
    var byService := PodPass(match seen.pods case Some(pods) => pods case None => []);
    if seen.rollouts.Some? {
      byService := AddStalledServices(byService, seen.rollouts.value, seen.pods.Some?);
    }
    out := [];
    for i := 0 to |services|
      invariant out == Report(services, i, seen)
    {
      var name := services[i].name;
      if name in byService {
        out := out + [Problem(name, byService[name])];
      }
    }
  }

  // ----- what the report says -----

  // Waiting for one of the nine reasons that do not clear by themselves.
  predicate Stuck(cs: ContainerStatus) {
    cs.state.Waiting? &&
    (|| cs.state.wait == CrashLoopBackOff
     || cs.state.wait == ImagePullBackOff
     || cs.state.wait == ErrImagePull
     || cs.state.wait == ErrImageNeverPull
     || cs.state.wait == ImageInspectError
     || cs.state.wait == InvalidImageName
     || cs.state.wait == CreateContainerConfigError
     || cs.state.wait == CreateContainerError
     || cs.state.wait == RunContainerError)
  }

  // Not ready, and either stuck, or started again after a failure without
  // having ended well since.
  predicate Broken(cs: ContainerStatus) {
    !cs.ready && (Stuck(cs) || (Failing(cs) && cs.state != Terminated(0)))
  }

  // A container that is started again after failing.
  predicate Failing(cs: ContainerStatus) {
    cs.restarts > 0 && cs.lastExit.Some? && cs.lastExit.value != 0
  }

  predicate CannotBePlaced(pod: Pod) {
    exists c :: c in pod.conditions && c.scheduled && c.status == False && c.unschedulable
  }

  // One of the service's pods that is not on its way out, and cannot be placed
  // or has a broken container.
  predicate BrokenPod(pod: Pod, name: string) {
    && !pod.terminating && Label.Service in pod.labels && pod.labels[Label.Service] == name
    && (|| CannotBePlaced(pod)
        || (exists cs :: cs in pod.initContainers && Broken(cs))
        || (exists cs :: cs in pod.containers && Broken(cs)))
  }

  predicate NoPodsAllowed(d: Rollout) {
    exists c :: c in d.conditions && c.kind == ReplicaFailureCondition && c.status == True
  }

  // One of the service's Deployments whose status has caught up with its spec,
  // which has pods of the present template or cannot have any, and which is
  // past its deadline.
  predicate Overdue(d: Rollout, name: string) {
    && Label.Service in d.labels && d.labels[Label.Service] == name
    && d.generation <= d.observedGeneration
    && (d.updatedReplicas > 0 || NoPodsAllowed(d))
    && exists c :: c in d.conditions && c.kind == ProgressingCondition && c.status == False && c.deadlineExceeded
  }

  // Something is wrong with the service, as far as the listings show.
  ghost predicate Spoken(seen: Observation, name: string) {
    || (seen.pods.Some? && exists pod :: pod in seen.pods.value && BrokenPod(pod, name))
    || (seen.rollouts.Some? && exists d :: d in seen.rollouts.value && Overdue(d, name))
  }

  lemma ProblemExactly(cs: ContainerStatus, isInit: bool)
    ensures ContainerProblem(cs, isInit).Some? <==> Broken(cs)
  {
  }

  lemma {:induction false} FirstContainerExactly(statuses: seq<ContainerStatus>, isInit: bool)
    ensures FirstContainer(statuses, isInit).Some? <==> exists cs :: cs in statuses && Broken(cs)
  {
    hide ContainerProblem, Broken;
    if statuses != [] {
      FirstContainerExactly(statuses[1..], isInit);
      ProblemExactly(statuses[0], isInit);
      assert statuses == [statuses[0]] + statuses[1..];
    }
  }

  lemma {:induction false} FirstRefusalExactly(conditions: seq<PodCondition>)
    ensures FirstRefusal(conditions).Some? <==>
            exists c :: c in conditions && c.scheduled && c.status == False && c.unschedulable
  {
    if conditions != [] {
      FirstRefusalExactly(conditions[1..]);
      assert conditions == [conditions[0]] + conditions[1..];
    }
  }

  lemma {:induction false} ReplicaFailureExactly(conditions: seq<RolloutCondition>)
    ensures ReplicaFailure(conditions).Some? <==>
            exists c :: c in conditions && c.kind == ReplicaFailureCondition && c.status == True
  {
    if conditions != [] {
      ReplicaFailureExactly(conditions[1..]);
      assert conditions == [conditions[0]] + conditions[1..];
    }
  }

  lemma PodSpeaksExactly(pod: Pod, name: string)
    requires name != ""
    ensures PodSpeaksFor(pod, name) <==> BrokenPod(pod, name)
  {
    FirstRefusalExactly(pod.conditions);
    FirstContainerExactly(pod.initContainers, true);
    FirstContainerExactly(pod.containers, false);
    hide Broken, FirstRefusal, FirstContainer;
  }

  lemma RolloutSpeaksExactly(d: Rollout, name: string)
    requires name != ""
    ensures RolloutSpeaksFor(d, name) <==> Overdue(d, name)
  {
    ReplicaFailureExactly(d.conditions);
    hide ReplicaFailure;
  }

  lemma {:induction false} PodDetailExact(pods: seq<Pod>, n: nat, name: string)
    requires n <= |pods|
    ensures PodDetail(pods, n, name).Some? <==> exists i :: 0 <= i < n && PodSpeaksFor(pods[i], name)
    ensures PodDetail(pods, n, name).Some? ==>
              exists i :: 0 <= i < n && PodSpeaksFor(pods[i], name) && PodDetail(pods, n, name) == PodProblem(pods[i])
  {
    if n > 0 {
      PodDetailExact(pods, n - 1, name);
    }
  }

  lemma {:induction false} RolloutDetailExact(rollouts: seq<Rollout>, n: nat, name: string, podsKnown: bool)
    requires n <= |rollouts|
    ensures RolloutDetail(rollouts, n, name, podsKnown).Some? <==>
            exists i :: 0 <= i < n && RolloutSpeaksFor(rollouts[i], name)
    ensures RolloutDetail(rollouts, n, name, podsKnown).Some? ==>
            RolloutDetail(rollouts, n, name, podsKnown).value.Stalled?
  {
    if n > 0 {
      RolloutDetailExact(rollouts, n - 1, name, podsKnown);
    }
  }

  lemma PodsExactly(pods: seq<Pod>, name: string)
    requires name != ""
    ensures PodDetail(pods, |pods|, name).Some? <==> exists pod :: pod in pods && BrokenPod(pod, name)
  {
    PodDetailExact(pods, |pods|, name);
    hide PodDetail, PodSpeaksFor, BrokenPod;
    forall i | 0 <= i < |pods| ensures PodSpeaksFor(pods[i], name) <==> BrokenPod(pods[i], name) {
      PodSpeaksExactly(pods[i], name);
    }
    if pod :| pod in pods && BrokenPod(pod, name) {
      var i :| 0 <= i < |pods| && pods[i] == pod;
    }
  }

  lemma RolloutsExactly(rollouts: seq<Rollout>, name: string, podsKnown: bool)
    requires name != ""
    ensures RolloutDetail(rollouts, |rollouts|, name, podsKnown).Some? <==>
            exists d :: d in rollouts && Overdue(d, name)
  {
    RolloutDetailExact(rollouts, |rollouts|, name, podsKnown);
    hide RolloutDetail, RolloutSpeaksFor, Overdue;
    forall i | 0 <= i < |rollouts| ensures RolloutSpeaksFor(rollouts[i], name) <==> Overdue(rollouts[i], name) {
      RolloutSpeaksExactly(rollouts[i], name);
    }
    if d :| d in rollouts && Overdue(d, name) {
      var i :| 0 <= i < |rollouts| && rollouts[i] == d;
    }
  }

  // A service is reported exactly when something is wrong with it.
  lemma DetailExact(seen: Observation, name: string)
    ensures ServiceDetail(seen, name).Some? <==> name != "" && Spoken(seen, name)
  {
    hide PodDetail, RolloutDetail, BrokenPod, Overdue;
    if name != "" {
      if seen.pods.Some? {
        PodsExactly(seen.pods.value, name);
      } else {
        PodsExactly([], name);
      }
      if seen.rollouts.Some? {
        RolloutsExactly(seen.rollouts.value, name, seen.pods.Some?);
      } else {
        RolloutsExactly([], name, seen.pods.Some?);
      }
    }
  }

  function Reported(problems: seq<Problem>): seq<string> {
    seq(|problems|, i requires 0 <= i < |problems| => problems[i].service)
  }

  // The names of the services something is wrong with, in the order of the spec.
  ghost function Troubled(services: seq<ServiceSpec>, n: nat, seen: Observation): seq<string>
    requires n <= |services|
  {
    if n == 0 then []
    else
      Troubled(services, n - 1, seen) +
      (if Spoken(seen, services[n - 1].name) then [services[n - 1].name] else [])
  }

  // The report names, in spec order, precisely those.
  lemma {:induction false} ReportExact(services: seq<ServiceSpec>, n: nat, seen: Observation)
    requires n <= |services| && forall i :: 0 <= i < n ==> services[i].name != ""
    ensures Reported(Report(services, n, seen)) == Troubled(services, n, seen)
  {
    if n > 0 {
      ReportExact(services, n - 1, seen);
      DetailExact(seen, services[n - 1].name);
      var before := Report(services, n - 1, seen);
      match ServiceDetail(seen, services[n - 1].name) {
        case Some(d) =>
          assert Reported(before + [Problem(services[n - 1].name, d)]) == Reported(before) + [services[n - 1].name];
        case None =>
          assert before + [] == before;
      }
    }
  }

  // Each at most once, when names are unique.
  lemma {:induction false} TroubledOnce(services: seq<ServiceSpec>, n: nat, seen: Observation, i: nat, j: nat)
    requires n <= |services|
    requires forall a, b :: 0 <= a < b < |services| ==> services[a].name != services[b].name
    requires i < j < |Troubled(services, n, seen)|
    ensures Troubled(services, n, seen)[i] != Troubled(services, n, seen)[j]
  {
    var before := Troubled(services, n - 1, seen);
    if j < |before| {
      TroubledOnce(services, n - 1, seen, i, j);
    } else {
      TroubledAmong(services, n - 1, seen, i);
    }
  }

  lemma {:induction false} TroubledAmong(services: seq<ServiceSpec>, n: nat, seen: Observation, i: nat)
    requires n <= |services| && i < |Troubled(services, n, seen)|
    ensures exists k :: 0 <= k < n && services[k].name == Troubled(services, n, seen)[i]
  {
    if i < |Troubled(services, n - 1, seen)| {
      TroubledAmong(services, n - 1, seen, i);
    }
  }

  // Where a pod is broken, the report says what is wrong with a broken pod,
  // never that a rollout is stalled.
  lemma PodWins(seen: Observation, name: string)
    requires name != "" && seen.pods.Some? && exists pod :: pod in seen.pods.value && BrokenPod(pod, name)
    ensures exists pod :: pod in seen.pods.value && BrokenPod(pod, name) && ServiceDetail(seen, name) == PodProblem(pod)
    ensures ServiceDetail(seen, name).Some? && !ServiceDetail(seen, name).value.Stalled?
  {
    var pods := seen.pods.value;
    PodsExactly(pods, name);
    PodDetailExact(pods, |pods|, name);
    hide PodDetail, PodProblem, BrokenPod;
    var k :| 0 <= k < |pods| && PodSpeaksFor(pods[k], name) && PodDetail(pods, |pods|, name) == PodProblem(pods[k]);
    assert pods[k] in pods;
    PodSpeaksExactly(pods[k], name);
    NotStalled(pods[k]);
  }

  lemma NotStalled(pod: Pod)
    ensures PodProblem(pod).Some? ==> !PodProblem(pod).value.Stalled?
  {
    RefusalNotStalled(pod.conditions);
    ContainerNotStalled(pod.initContainers, true);
    ContainerNotStalled(pod.containers, false);
  }

  lemma {:induction false} RefusalNotStalled(conditions: seq<PodCondition>)
    ensures FirstRefusal(conditions).Some? ==> !FirstRefusal(conditions).value.Stalled?
  {
    if conditions != [] {
      RefusalNotStalled(conditions[1..]);
    }
  }

  lemma {:induction false} ContainerNotStalled(statuses: seq<ContainerStatus>, isInit: bool)
    ensures FirstContainer(statuses, isInit).Some? ==> !FirstContainer(statuses, isInit).value.Stalled?
  {
    if statuses != [] {
      ContainerNotStalled(statuses[1..], isInit);
    }
  }

  // Who is named in a report.
  lemma {:induction false} ReportNames(services: seq<ServiceSpec>, n: nat, seen: Observation, name: string)
    requires n <= |services|
    ensures name in Reported(Report(services, n, seen)) <==>
            ServiceDetail(seen, name).Some? && exists k :: 0 <= k < n && services[k].name == name
  {
    if n > 0 {
      ReportNames(services, n - 1, seen, name);
      var before := Report(services, n - 1, seen);
      match ServiceDetail(seen, services[n - 1].name) {
        case Some(d) =>
          assert Reported(before + [Problem(services[n - 1].name, d)]) == Reported(before) + [services[n - 1].name];
        case None =>
          assert before + [] == before;
      }
      hide ServiceDetail;
    }
  }

  // A failed listing takes away the services only it would have named, and no
  // others; and without the pods no probe is blamed.
  lemma FailedListing(services: seq<ServiceSpec>, seen: Observation, name: string)
    requires name != ""
    ensures var n := |services|;
            name in Reported(Report(services, n, seen)) <==>
            || name in Reported(Report(services, n, seen.(pods := None)))
            || name in Reported(Report(services, n, seen.(rollouts := None)))
    ensures seen.pods.None? && ServiceDetail(seen, name).Some? ==>
              && ServiceDetail(seen, name).value.Stalled?
              && ServiceDetail(seen, name).value.cause != ProbeNotPassing
  {
    ReportNames(services, |services|, seen, name);
    ReportNames(services, |services|, seen.(pods := None), name);
    ReportNames(services, |services|, seen.(rollouts := None), name);
    DetailExact(seen, name);
    DetailExact(seen.(pods := None), name);
    DetailExact(seen.(rollouts := None), name);
    if seen.pods.None? && seen.rollouts.Some? {
      StallBlindToPods(seen.rollouts.value, |seen.rollouts.value|, name);
    }
  }

  // Without the pods no probe is blamed.
  lemma {:induction false} StallBlindToPods(rollouts: seq<Rollout>, n: nat, name: string)
    requires n <= |rollouts|
    ensures var d := RolloutDetail(rollouts, n, name, false);
            d.Some? ==> d.value.Stalled? && d.value.cause != ProbeNotPassing
  {
    if n > 0 {
      StallBlindToPods(rollouts, n - 1, name);
    }
  }

  ghost predicate SameListing(a: Observation, b: Observation) {
    && (a.pods.Some? <==> b.pods.Some?)
    && (a.pods.Some? ==> multiset(a.pods.value) == multiset(b.pods.value))
    && (a.rollouts.Some? <==> b.rollouts.Some?)
    && (a.rollouts.Some? ==> multiset(a.rollouts.value) == multiset(b.rollouts.value))
  }

  // The order the server lists pods and Deployments in does not change which
  // services are reported, nor in which order.
  lemma ListingOrderIrrelevant(services: seq<ServiceSpec>, a: Observation, b: Observation)
    requires SameListing(a, b) && forall i :: 0 <= i < |services| ==> services[i].name != ""
    ensures Reported(Report(services, |services|, a)) == Reported(Report(services, |services|, b))
  {
    ReportExact(services, |services|, a);
    ReportExact(services, |services|, b);
    SameTroubled(services, |services|, a, b);
  }

  lemma SameSpoken(a: Observation, b: Observation, name: string)
    requires SameListing(a, b) && Spoken(a, name)
    ensures Spoken(b, name)
  {
    if a.pods.Some? {
      if pod :| pod in a.pods.value && BrokenPod(pod, name) {
        assert pod in multiset(b.pods.value);
      }
    }
    if a.rollouts.Some? {
      if d :| d in a.rollouts.value && Overdue(d, name) {
        assert d in multiset(b.rollouts.value);
      }
    }
  }

  lemma {:induction false} SameTroubled(services: seq<ServiceSpec>, n: nat, a: Observation, b: Observation)
    requires SameListing(a, b) && n <= |services|
    ensures Troubled(services, n, a) == Troubled(services, n, b)
  {
    if n > 0 {
      SameTroubled(services, n - 1, a, b);
      if Spoken(a, services[n - 1].name) {
        SameSpoken(a, b, services[n - 1].name);
      } else if Spoken(b, services[n - 1].name) {
        SameSpoken(b, a, services[n - 1].name);
      }
    }
  }

  // ----- a crash loop is seen in every state -----

  // One step of a container's life, as the kubelet records it.
  predicate LifeStep(a: ContainerStatus, b: ContainerStatus) {
    match (a.state, b.state)
    // It ends.
    case (Running, Terminated(_)) => b.lastExit == a.lastExit && b.restarts == a.restarts
    // It is held back, or held back for another reason.
    case (Terminated(code), Waiting(_, _)) => b.lastExit == Some(code) && b.restarts == a.restarts
    case (Waiting(_, _), Waiting(_, _)) => b.lastExit == a.lastExit && b.restarts == a.restarts
    // It is started again.
    case (Terminated(code), Running) => b.lastExit == Some(code) && b.restarts == a.restarts + 1
    case (Waiting(_, _), Running) =>
      b.lastExit == a.lastExit && (b.restarts == a.restarts || b.restarts == a.restarts + 1)
    // It turns ready or unready.
    case (Running, Running) => b.lastExit == a.lastExit && b.restarts == a.restarts
    case _ => a == b
  }

  // It has neither become ready nor ended well.
  predicate NeverWell(life: seq<ContainerStatus>) {
    forall i :: 0 <= i < |life| ==> !life[i].ready && life[i].state != Terminated(0)
  }

  lemma {:induction false} FailingStays(life: seq<ContainerStatus>, n: nat)
    requires n < |life| && Failing(life[0]) && NeverWell(life)
    requires forall i :: 0 <= i < |life| - 1 ==> LifeStep(life[i], life[i + 1])
    ensures Failing(life[n])
  {
    if n > 0 {
      FailingStays(life, n - 1);
      assert LifeStep(life[n - 1], life[n]);
    }
  }

  // From the first restart after a failure on, the container is a problem
  // whether it is caught waiting, running or ended.
  lemma CrashLoopSeen(life: seq<ContainerStatus>, n: nat, isInit: bool)
    requires n < |life| && Failing(life[0]) && NeverWell(life)
    requires forall i :: 0 <= i < |life| - 1 ==> LifeStep(life[i], life[i + 1])
    ensures ContainerProblem(life[n], isInit).Some?
  {
    FailingStays(life, n);
    ProblemExactly(life[n], isInit);
    hide ContainerProblem;
  }

  // So while it loops, every report of a listing that holds its pod names its
  // service.
  lemma CrashLoopReported(life: seq<ContainerStatus>, n: nat, pod: Pod, i: nat, seen: Observation,
                          services: seq<ServiceSpec>, k: nat)
    requires n < |life| && Failing(life[0]) && NeverWell(life)
    requires forall j :: 0 <= j < |life| - 1 ==> LifeStep(life[j], life[j + 1])
    requires i < |pod.containers| && pod.containers[i] == life[n] && !pod.terminating
    requires seen.pods.Some? && pod in seen.pods.value
    requires k < |services| && services[k].name == Lookup(pod.labels, Label.Service) && services[k].name != ""
    ensures ServiceDetail(seen, services[k].name).Some?
    ensures services[k].name in Reported(Report(services, |services|, seen))
  {
    CrashLoopSeen(life, n, false);
    ProblemExactly(pod.containers[i], false);
    assert pod.containers[i] in pod.containers;
    hide Broken, ContainerProblem, LifeStep;
    assert BrokenPod(pod, services[k].name);
    DetailExact(seen, services[k].name);
    ReportNames(services, |services|, seen, services[k].name);
  }
}
