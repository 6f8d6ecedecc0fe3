// controller.go:485-501 and 734-776: when a service is ready, how many are,
// and what the status says of it, told by what is stored.
module Readiness {
  import opened Text
  import opened Types
  import opened Server
  import opened Goals
  import opened Steps
  import opened Passes
  import opened Diagnosis
  import opened StatusRules
  import opened Convergence
  import opened Workloads
  import opened Plain

  // As many pods are ready as the spec asks for, which is one when it does not
  // say.
  predicate Serving(t: Store, ns: string, svc: ServiceSpec) {
    var k := Key(Deployment, ns, svc.name);
    k in t.objects &&
    match svc.replicas
    case Some(n) => t.objects[k].readyReplicas >= n
    case None => t.objects[k].readyReplicas >= 1
  }

  lemma ServingExactly(t: Store, e: EnvKey, spec: EnvSpec, svc: ServiceSpec, ns: string)
    requires IsTarget(ns, e, spec)
    ensures Serving(t, ns, svc) <==> ReadyNow(t, Env(e, spec), svc)
  {
    IsTargetExactly(ns, e, spec);
    hide IsTarget, TargetNamespace;
  }

  lemma ReplicasField(env: Env, svc: ServiceSpec)
    ensures svc.replicas.Some? ==>
              Replicas in DeploymentBody(env, svc) && DeploymentBody(env, svc)[Replicas] == Number(svc.replicas.value)
  {
    ContainerFixed(env, svc);
    PodFields(env, svc);
    hide ContainerBody, PodBody, EnvLabels, Registry.ImageRef;
  }

  // The Deployment asks for what the spec asks for, and the service is ready
  // exactly when as many of its pods are as the Deployment itself asks for.
  predicate ReadyAsStored(t: Store, ns: string, svc: ServiceSpec, isReady: bool) {
    var k := Key(Deployment, ns, svc.name);
    && k in t.objects
    && (svc.replicas.Some? ==>
          && Replicas in t.objects[k].body && t.objects[k].body[Replicas] == Number(svc.replicas.value)
          && (isReady <==> t.objects[k].readyReplicas >= t.objects[k].body[Replicas].n))
    && (svc.replicas.None? ==> (isReady <==> t.objects[k].readyReplicas >= 1))
  }

  lemma HeldReady(t: Store, env: Env, svc: ServiceSpec, ns: string)
    requires Fills(t.fill) && IsTarget(ns, env.key, env.spec)
    requires Holds(t, DeployKey(env, svc.name), EnvLabels(env, svc.name), DeploymentBody(env, svc))
    ensures ReadyAsStored(t, ns, svc, ReadyNow(t, env, svc))
  {
    hide DeploymentBody, EnvLabels, Exact, Fills, IsTarget, TargetNamespace, ReadyNow;
    ServingExactly(t, env.key, env.spec, svc, ns);
    IsTargetExactly(ns, env.key, env.spec);
    ReplicasField(env, svc);
    ExactWithin(t.fill, Deployment, t.objects[DeployKey(env, svc.name)].body, DeploymentBody(env, svc));
  }

  // What ReconcileService answers of the Deployment it has written.
  lemma ReportedAsStored(s: Store, t: Store, env: Env, svc: ServiceSpec)
    requires Fills(s.fill) && Between(s, t, env) && UniqueNames(env.spec) && svc in env.spec.services
    requires WorkloadAtGoal(s, t, env, svc.name)
    ensures forall ns :: IsTarget(ns, env.key, env.spec) ==> ReadyAsStored(t, ns, svc, ReadyNow(t, env, svc))
  {
    hide AtGoal, Holds, ReadyAsStored, ReadyNow, UniqueNames, Fills, IsTarget, EnvLabels, DeploymentBody, StepAt,
         AdmittedAt;
    DeploymentContent(s, t, env, svc);
    forall ns | IsTarget(ns, env.key, env.spec) ensures ReadyAsStored(t, ns, svc, ReadyNow(t, env, svc)) {
      HeldReady(t, env, svc, ns);
    }
  }

  // The number reported is the number of services that are ready.
  ghost function ServingAmong(t: Store, ns: string, services: seq<ServiceSpec>, n: nat): set<int>
    requires n <= |services|
  {
    set i | 0 <= i < n && Serving(t, ns, services[i])
  }

  lemma ServingStep(t: Store, ns: string, services: seq<ServiceSpec>, n: nat)
    requires n < |services|
    ensures ServingAmong(t, ns, services, n + 1) ==
            ServingAmong(t, ns, services, n) + (if Serving(t, ns, services[n]) then {n as int} else {})
    ensures n !in ServingAmong(t, ns, services, n)
  {
    hide Serving;
  }

  lemma {:induction false} CountIsNumber(t: Store, e: EnvKey, spec: EnvSpec, ns: string, n: nat)
    requires IsTarget(ns, e, spec) && n <= |spec.services|
    ensures CountReady(t, Env(e, spec), n) == |ServingAmong(t, ns, spec.services, n)|
  {
    hide Serving, ReadyNow, IsTarget;
    if n > 0 {
      CountIsNumber(t, e, spec, ns, n - 1);
      ServingExactly(t, e, spec, spec.services[n - 1], ns);
      ServingStep(t, ns, spec.services, n - 1);
    }
  }

  lemma CountIsEverybody(t: Store, env: Env)
    ensures forall ns :: IsTarget(ns, env.key, env.spec) ==>
              CountReady(t, env, |env.spec.services|) ==
              |ServingAmong(t, ns, env.spec.services, |env.spec.services|)|
  {
    hide IsTarget, CountReady, ServingAmong;
    forall ns | IsTarget(ns, env.key, env.spec)
      ensures CountReady(t, env, |env.spec.services|) ==
              |ServingAmong(t, ns, env.spec.services, |env.spec.services|)|
    {
      CountIsNumber(t, env.key, env.spec, ns, |env.spec.services|);
    }
  }

  lemma {:induction false} AllAmong(t: Store, ns: string, services: seq<ServiceSpec>, n: nat)
    requires n <= |services|
    ensures |ServingAmong(t, ns, services, n)| <= n
    ensures |ServingAmong(t, ns, services, n)| == n <==> forall i :: 0 <= i < n ==> Serving(t, ns, services[i])
  {
    hide Serving;
    if n > 0 {
      AllAmong(t, ns, services, n - 1);
      ServingStep(t, ns, services, n - 1);
      hide ServingAmong;
    }
  }

  lemma AllServing(t: Store, ns: string, services: seq<ServiceSpec>)
    ensures |ServingAmong(t, ns, services, |services|)| <= |services|
    ensures |ServingAmong(t, ns, services, |services|)| == |services| <==>
            forall svc :: svc in services ==> Serving(t, ns, svc)
  {
    AllAmong(t, ns, services, |services|);
    hide Serving, ServingAmong;
  }

  // ----- the status -----

  // One condition of this type, and what it says.
  predicate Says(conditions: seq<Condition>, kind: ConditionType, status: Truth, reason: Reason, message: Message,
                 generation: nat) {
    exists c :: c in conditions && c.kind == kind && c.status == status && c.reason == reason && c.message == message
      && c.generation == generation
  }

  lemma {:induction false} FoundSays(conditions: seq<Condition>, c: Condition)
    requires Find(conditions, c.kind).Some? && Find(conditions, c.kind).value.(since := 0) == c.(since := 0)
    ensures Says(conditions, c.kind, c.status, c.reason, c.message, c.generation)
  {
    if conditions[0].kind == c.kind {
      assert conditions[0] in conditions;
    } else {
      FoundSays(conditions[1..], c);
      var d :| d in conditions[1..] && d.kind == c.kind && d.status == c.status && d.reason == c.reason
               && d.message == c.message && d.generation == c.generation;
      assert d in conditions;
    }
  }

  lemma ThreeFound(c: seq<Condition>, a: Condition, p: Condition, d: Condition)
    requires a.kind == Available && p.kind == Progressing && d.kind == Degraded
    ensures var r := Upsert(Upsert(Upsert(c, a), p), d);
            && Says(r, Available, a.status, a.reason, a.message, a.generation)
            && Says(r, Progressing, p.status, p.reason, p.message, p.generation)
            && Says(r, Degraded, d.status, d.reason, d.message, d.generation)
  {
    UpsertFinds(c, a, Available);
    UpsertFinds(Upsert(c, a), p, Available);
    UpsertFinds(Upsert(c, a), p, Progressing);
    UpsertFinds(Upsert(Upsert(c, a), p), d, Available);
    UpsertFinds(Upsert(Upsert(c, a), p), d, Progressing);
    UpsertFinds(Upsert(Upsert(c, a), p), d, Degraded);
    var r := Upsert(Upsert(Upsert(c, a), p), d);
    hide Upsert, Says, Find;
    FoundSays(r, a);
    FoundSays(r, p);
    FoundSays(r, d);
  }

  // After a pass that reports no error the status counts the services that are
  // ready and the services there are, in the namespace there is; all ready is
  // Ready, and only then the pass is not to be run again.
  lemma StatusAfterSuccess(s: Store, t: Store, e: EnvKey, seen: Observation, now: nat, requeue: bool, ns: string)
    requires e in s.records && ProvisionSuccess(s, t, e, seen, now, requeue) && IsTarget(ns, e, s.records[e].spec)
    ensures e in t.records
    ensures var services, status := s.records[e].spec.services, t.records[e].status;
            var all := forall svc :: svc in services ==> Serving(t, ns, svc);
            && status.namespace == ns && status.generation == s.records[e].generation
            && status.total == |services| && status.ready == |ServingAmong(t, ns, services, |services|)|
            && (status.phase == if all then Ready else Provisioning)
            && (requeue <==> !all)
  {
    var spec := s.records[e].spec;
    CountIsNumber(t, e, spec, ns, |spec.services|);
    AllServing(t, ns, spec.services);
    IsTargetExactly(ns, e, spec);
    hide ServingAmong, CountReady, Serving, IsTarget, TargetNamespace, Succeeds, Reached, Report, Upsert;
  }

  // And its conditions say so, with the counts or with what is wrong.
  lemma ConditionsAfterSuccess(s: Store, t: Store, e: EnvKey, seen: Observation, now: nat, requeue: bool)
    requires e in s.records && ProvisionSuccess(s, t, e, seen, now, requeue) && e in t.records
    ensures var st, services, g := t.records[e].status, s.records[e].spec.services, s.records[e].generation;
            var problems := Report(services, |services|, seen);
            var counts := ReadyCount(st.ready, st.total);
            if st.ready == st.total then
              && Says(st.conditions, Available, True, EnvironmentReady, counts, g)
              && Says(st.conditions, Progressing, False, Provisioned, counts, g)
              && Says(st.conditions, Degraded, False, ReconcileSucceeded, Succeeded, g)
            else
              && Says(st.conditions, Available, False, ServicesNotReady, counts, g)
              && (if problems == [] then
                    && Says(st.conditions, Progressing, True, ProvisioningReason, counts, g)
                    && Says(st.conditions, Degraded, False, ReconcileSucceeded, Succeeded, g)
                  else
                    && Says(st.conditions, Progressing, False, WorkloadUnhealthy, Problems(problems), g)
                    && Says(st.conditions, Degraded, True, WorkloadUnhealthy, Problems(problems), g))
  {
    var r := s.records[e];
    var env := EnvOf(e, r);
    var ready, total := CountReady(t, env, |r.spec.services|), |r.spec.services|;
    var problems := Report(r.spec.services, total, seen);
    hide Succeeds, Reached, CountReady, Report, Upsert, Says, TargetNamespace;
    ThreeFound(r.status.conditions, AvailableNow(r.generation, ready, total, now),
               ProgressingNow(r.generation, ready, total, problems, now),
               DegradedNow(r.generation, ready, total, problems, now));
  }

  // A failure says so in every condition, and leaves the namespace and the
  // counts as they were.
  lemma StatusAfterFailure(s: Store, t: Store, e: EnvKey, cause: Cause, now: nat)
    requires e in s.records && e in t.records && Some(t.records[e].status) == FailureStatus(s, e, Some(cause), now)
    ensures var was, st, g := s.records[e].status, t.records[e].status, s.records[e].generation;
            && st.phase == Failed && st.generation == g
            && st.namespace == was.namespace && st.ready == was.ready && st.total == was.total
            && Says(st.conditions, Available, False, ProvisioningFailed, Failure(cause), g)
            && Says(st.conditions, Progressing, False, ProvisioningFailed, Failure(cause), g)
            && Says(st.conditions, Degraded, True, ReconcileFailed, Failure(cause), g)
  {
    var r := s.records[e];
    ThreeFound(r.status.conditions, Cond(Available, False, ProvisioningFailed, Failure(cause), r.generation, now),
               Cond(Progressing, False, ProvisioningFailed, Failure(cause), r.generation, now),
               Cond(Degraded, True, ReconcileFailed, Failure(cause), r.generation, now));
    hide Upsert, Says;
  }
}
