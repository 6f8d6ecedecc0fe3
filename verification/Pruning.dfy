// controller.go:654-695: what becomes of a service that is dropped from the
// spec, told by the labels its workloads bear.
module Pruning {
  import opened Types
  import opened Server
  import opened Goals
  import opened Steps
  import opened Passes
  import opened Diagnosis
  import opened Convergence
  import opened Plain

  // It bears the manager's label and the environment's name, and the label of
  // a service the spec does not have. No other label matters.
  predicate Dropped(labels: Labels, e: EnvKey, spec: EnvSpec) {
    && Bears(labels, ManagedBy, "kado-operator")
    && Bears(labels, Label.Environment, e.name)
    && Label.Service in labels && labels[Label.Service] != "" && !Uses(spec, labels[Label.Service])
  }

  lemma DroppedExactly(labels: Labels, e: EnvKey, spec: EnvSpec)
    ensures Dropped(labels, e, spec) <==> Prunable(Env(e, spec), labels)
  {
    if Label.Service in labels {
      UsesExactly(spec, labels[Label.Service]);
    }
    hide Uses, HasService;
  }

  // A deleted object is gone, or marked where finalizers hold it.
  predicate Deleted(s: Store, t: Store, k: Key)
    requires k in s.objects
  {
    if s.objects[k].finalizers == {} then k !in t.objects
    else k in t.objects && t.objects[k].terminating && t.objects[k].finalizers == s.objects[k].finalizers
  }

  predicate DroppedAt(s: Store, ns: string, e: EnvKey, spec: EnvSpec, k: Key) {
    && (k.kind == Deployment || k.kind == Kind.Service) && k.ns == ns
    && k in s.objects && Dropped(s.objects[k].labels, e, spec)
  }

  // Of all there is, in any namespace, only what the labels say is dropped is
  // deleted; and all of it if the pruning comes to its end.
  ghost predicate PrunedByLabel(s: Store, t: Store, ns: string, e: EnvKey, spec: EnvSpec, all: bool) {
    && (forall k :: !DroppedAt(s, ns, e, spec, k) ==> ObjAt(t, k) == ObjAt(s, k))
    && (forall k :: DroppedAt(s, ns, e, spec, k) ==> Deleted(s, t, k) || (!all && ObjAt(t, k) == ObjAt(s, k)))
  }

  lemma PrunedAsLabelled(s: Store, t: Store, env: Env, all: bool)
    requires PruneWay(s, t, env, {Deployment, Kind.Service})
    requires all ==> AllPruned(s, t, env, {Deployment, Kind.Service})
    ensures forall ns :: IsTarget(ns, env.key, env.spec) ==> PrunedByLabel(s, t, ns, env.key, env.spec, all)
  {
    hide Dropped, Prunable, IsTarget, TargetNamespace;
    forall ns | IsTarget(ns, env.key, env.spec) ensures PrunedByLabel(s, t, ns, env.key, env.spec, all) {
      IsTargetExactly(ns, env.key, env.spec);
      forall k | k in s.objects
        ensures Dropped(s.objects[k].labels, env.key, env.spec) <==> Prunable(env, s.objects[k].labels)
      {
        DroppedExactly(s.objects[k].labels, env.key, env.spec);
      }
      forall k ensures DroppedAt(s, ns, env.key, env.spec, k) <==> ToPrune(s, env, {Deployment, Kind.Service}, k) {
      }
      hide DroppedAt, ToPrune;
    }
  }

  lemma UnusedGoal(s: Store, e: EnvKey, spec: EnvSpec, k: Key)
    requires (k.kind == Deployment || k.kind == Kind.Service) && IsTarget(k.ns, e, spec) && !Uses(spec, k.name)
    ensures Goal(s, Env(e, spec), k) ==
            if k in s.objects && Dropped(s.objects[k].labels, e, spec) then Removed(FaceAt(s, k)) else FaceAt(s, k)
  {
    IsTargetExactly(k.ns, e, spec);
    UsesExactly(spec, k.name);
    if k in s.objects {
      DroppedExactly(s.objects[k].labels, e, spec);
    }
    hide Uses, HasService, Dropped, Prunable, IsTarget, TargetNamespace;
  }

  // A pass that reports no error leaves nothing of a service the spec does not
  // have, unless somebody's finalizer still holds it.
  lemma DroppedGoes(s: Store, t: Store, e: EnvKey, seen: Observation, now: nat, requeue: bool, k: Key)
    requires Pass(s, t, e) && e in s.records && !s.records[e].deleting && ProvisionSuccess(s, t, e, seen, now, requeue)
    requires (k.kind == Deployment || k.kind == Kind.Service) && IsTarget(k.ns, e, s.records[e].spec)
    requires !Uses(s.records[e].spec, k.name)
    requires k in s.objects && Dropped(s.objects[k].labels, e, s.records[e].spec)
    ensures Deleted(s, t, k)
  {
    UnusedGoal(s, e, s.records[e].spec, k);
    assert AtGoal(s, t, EnvOf(e, s.records[e]), k);
    hide Goal, Dropped, Uses, Pass, Succeeds, CountReady;
  }

  // And no pass, successful or not, touches any other workload under a name
  // the spec does not use, nor makes one.
  lemma UndroppedStays(s: Store, t: Store, e: EnvKey, k: Key)
    requires Pass(s, t, e) && e in s.records
    requires (k.kind == Deployment || k.kind == Kind.Service) && IsTarget(k.ns, e, s.records[e].spec)
    requires !Uses(s.records[e].spec, k.name)
    requires k in s.objects ==> !Dropped(s.objects[k].labels, e, s.records[e].spec)
    ensures ObjAt(t, k) == ObjAt(s, k)
  {
    if !s.records[e].deleting {
      UnusedGoal(s, e, s.records[e].spec, k);
      assert StepAt(s, t, EnvOf(e, s.records[e]), k);
    }
    hide Goal, Dropped, Uses, SupportFirst, NsHeld, Writes;
  }

  // Whatever else an edit of the spec changes, the next pass that reports no
  // error takes down what the services it drops were running as.
  lemma EditDrops(t: Store, u: Store, e: EnvKey, before: EnvSpec, svc: ServiceSpec, seen: Observation, now: nat,
                  requeue: bool, k: Key)
    requires Converged(t, Env(e, before)) && svc in before.services && svc.name != ""
    requires Pass(t, u, e) && e in t.records && !t.records[e].deleting && ProvisionSuccess(t, u, e, seen, now, requeue)
    requires IsTarget(k.ns, e, before) && IsTarget(k.ns, e, t.records[e].spec)
    requires (k.kind == Deployment || k.kind == Kind.Service) && k.name == svc.name
    requires !Uses(t.records[e].spec, svc.name)
    ensures k in t.objects
    ensures k !in u.objects || (u.objects[k].terminating && u.objects[k].finalizers != {})
  {
    hide Pass, ProvisionSuccess, Uses, IsTarget, EnvLabels, DeploymentBody, ServiceBody, Exact, TargetNamespace;
    assert ServiceRight(t, Env(e, before), svc);
    IsTargetExactly(k.ns, e, before);
    assert k == DeployKey(Env(e, before), svc.name) || k == ServiceKey(Env(e, before), svc.name);
    hide Converged;
    LabelledExactly(t.objects[k].labels, e, before, svc.name);
    DroppedGoes(t, u, e, seen, now, requeue, k);
  }
}
