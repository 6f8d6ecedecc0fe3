// What a pass that reports no error leaves behind, whatever store it started
// from: exactly what the spec asks for, with nothing referred to missing.
module Convergence {
  import opened Text
  import opened Types
  import opened Server
  import opened Goals
  import opened Client
  import opened Progress
  import opened Steps
  import opened Passes
  import opened Diagnosis
  import opened Plain

  predicate Workload(kind: Kind) {
    kind == Deployment || kind == Kind.Service
  }

  // ----- content -----

  // The fields the controller manages are as the spec has them, or as the
  // server defaults them; nothing is left of what they were before.
  ghost predicate Exact(fill: (Kind, Body) -> Body, kind: Kind, body: Body, desired: Body) {
    exists rest :: NoneManaged(kind, rest) && body == fill(kind, rest + desired)
  }

  lemma AnewExact(fill: (Kind, Body) -> Body, kind: Kind, desired: Body, onCreate: Body)
    requires OnlyManaged(kind, desired) && NoneManaged(kind, onCreate)
    ensures Exact(fill, kind, fill(kind, Apply(kind, map[], desired) + onCreate), desired)
  {
    assert Apply(kind, map[], desired) + onCreate == onCreate + desired;
  }

  lemma AppliedExact(fill: (Kind, Body) -> Body, kind: Kind, was: Body, desired: Body)
    ensures Exact(fill, kind, fill(kind, Apply(kind, was, desired)), desired)
  {
    var rest := map f | f in was && !Managed(kind, f) :: was[f];
    assert NoneManaged(kind, rest) && Apply(kind, was, desired) == rest + desired;
  }

  lemma WrittenExact(fill: (Kind, Body) -> Body, kind: Kind, was: Option<Obj>, labels: Labels, desired: Body,
                     onCreate: Body)
    requires OnlyManaged(kind, desired) && NoneManaged(kind, onCreate)
    ensures var o := Written(fill, kind, was, labels, desired, onCreate);
            Exact(fill, kind, o.body, desired) && o.labels == labels
  {
    match was
    case None => AnewExact(fill, kind, desired, onCreate);
    case Some(o) => AppliedExact(fill, kind, o.body, desired);
  }

  // A field the server does not default is in the content just when the spec
  // asks for it. So dropping storage from the spec takes the fsGroup off the
  // pods, and dropping the pull secrets takes the references off.
  lemma FieldExact(fill: (Kind, Body) -> Body, kind: Kind, body: Body, desired: Body, f: Field)
    requires Fills(fill) && Exact(fill, kind, body, desired) && Managed(kind, f)
    requires NotDefaulted(fill, kind, f)
    ensures f in body <==> f in desired
    ensures f in desired ==> body[f] == desired[f]
  {
    var rest :| NoneManaged(kind, rest) && body == fill(kind, rest + desired);
    assert Within(rest + desired, body);
  }

  ghost predicate NotDefaulted(fill: (Kind, Body) -> Body, kind: Kind, f: Field) {
    forall b :: f !in b ==> f !in fill(kind, b)
  }

  ghost predicate Holds(s: Store, k: Key, labels: Labels, desired: Body) {
    k in s.objects && s.objects[k].labels == labels && Exact(s.fill, k.kind, s.objects[k].body, desired)
  }

  // What has been written is held.
  lemma WrittenHeld(s: Store, t: Store, k: Key, labels: Labels, desired: Body, onCreate: Body)
    requires t.fill == s.fill && OnlyManaged(k.kind, desired) && NoneManaged(k.kind, onCreate)
    requires FaceAt(t, k) == Some(Written(s.fill, k.kind, FaceAt(s, k), labels, desired, onCreate))
    ensures Holds(t, k, labels, desired)
  {
    WrittenExact(s.fill, k.kind, FaceAt(s, k), labels, desired, onCreate);
    hide Exact, Written;
  }

  lemma DeploymentContent(s: Store, t: Store, env: Env, svc: ServiceSpec)
    requires t.fill == s.fill && UniqueNames(env.spec) && svc in env.spec.services
    requires AtGoal(s, t, env, DeployKey(env, svc.name))
    ensures Holds(t, DeployKey(env, svc.name), EnvLabels(env, svc.name), DeploymentBody(env, svc))
  {
    hide Goal, DeploymentBody, ServiceBody, EnvLabels, Written, FaceAt, Holds, UniqueNames, TargetNamespace;
    WantedGoal(s, env, svc);
    DesiredIsManaged(env, svc);
    WrittenHeld(s, t, DeployKey(env, svc.name), EnvLabels(env, svc.name), DeploymentBody(env, svc),
                SelectorBody(env, svc));
  }

  lemma ServiceContent(s: Store, t: Store, env: Env, svc: ServiceSpec)
    requires t.fill == s.fill && UniqueNames(env.spec) && svc in env.spec.services
    requires AtGoal(s, t, env, DeployKey(env, svc.name)) && AtGoal(s, t, env, ServiceKey(env, svc.name))
    ensures Holds(t, DeployKey(env, svc.name), EnvLabels(env, svc.name), DeploymentBody(env, svc))
    ensures Holds(t, ServiceKey(env, svc.name), EnvLabels(env, svc.name), ServiceBody(env, svc))
  {
    DeploymentContent(s, t, env, svc);
    hide Goal, DeploymentBody, ServiceBody, EnvLabels, Written, FaceAt, Holds, UniqueNames, TargetNamespace;
    WantedGoal(s, env, svc);
    DesiredIsManaged(env, svc);
    WrittenHeld(s, t, ServiceKey(env, svc.name), EnvLabels(env, svc.name), ServiceBody(env, svc), map[]);
  }

  // ----- names and service labels -----

  // Whatever bears the manager's label is named after its service label, or
  // has none.
  predicate Named(k: Key, labels: Labels) {
    Workload(k.kind) && Lookup(labels, ManagedBy) == MANAGER ==> Lookup(labels, Label.Service) in ["", k.name]
  }

  predicate NamedByService(s: Store) {
    forall k :: k in s.objects ==> Named(k, s.objects[k].labels)
  }

  lemma GoalNamed(s: Store, env: Env, k: Key)
    requires Workload(k.kind) && (k in s.objects ==> Named(k, s.objects[k].labels))
    ensures Goal(s, env, k).Some? ==> Named(k, Goal(s, env, k).value.labels)
  {
    hide WorkloadObj, Prunable, HasService, Named;
    if Wanted(env, k) {
      WantedObj(s, env, k);
      StampNamed(s.fill, env, ServiceNamed(env.spec.services, k.name), k, FaceAt(s, k));
    } else if k.ns == TargetNamespace(env) {
      assert Goal(s, env, k) == WorkloadGoal(s, env, k);
    }
  }

  lemma StampNamed(fill: (Kind, Body) -> Body, env: Env, svc: ServiceSpec, k: Key, was: Option<Obj>)
    requires svc.name == k.name
    ensures Named(k, WorkloadObj(fill, env, svc, k.kind, was).labels)
  {
    hide DeploymentBody, ServiceBody, SelectorBody, Apply;
  }

  lemma PassKeepsNames(s: Store, t: Store, e: EnvKey)
    requires Pass(s, t, e) && NamedByService(s)
    ensures NamedByService(t)
  {
    if e in s.records && !s.records[e].deleting {
      var env := EnvOf(e, s.records[e]);
      hide Goal, Replacing, Named, SupportFirst;
      forall k | k in t.objects ensures Named(k, t.objects[k].labels) {
        assert StepAt(s, t, env, k);
        if Workload(k.kind) {
          GoalNamed(s, env, k);
        } else {
          NamedOther(k, t.objects[k].labels);
        }
      }
    }
  }

  lemma NamedOther(k: Key, labels: Labels)
    requires !Workload(k.kind)
    ensures Named(k, labels)
  {
  }

  // Everybody else: users, kubelets, other controllers. They may do anything
  // but put the manager's label on a workload or rename its service.
  predicate Honest(s: Store, t: Store) {
    forall k :: k in t.objects && Workload(k.kind) && Lookup(t.objects[k].labels, ManagedBy) == MANAGER ==>
                  && k in s.objects
                  && Lookup(s.objects[k].labels, ManagedBy) == MANAGER
                  && Lookup(s.objects[k].labels, Label.Service) == Lookup(t.objects[k].labels, Label.Service)
  }

  // A run: passes for any environments, cut off or not, and honest others.
  ghost predicate Run(stores: seq<Store>) {
    forall i :: 0 <= i < |stores| - 1 ==> RunStep(stores[i], stores[i + 1])
  }

  ghost predicate RunStep(s: Store, t: Store) {
    Honest(s, t) || exists e :: Pass(s, t, e)
  }

  lemma {:induction false} AlwaysNamed(stores: seq<Store>, n: nat)
    requires Run(stores) && n < |stores| && NamedByService(stores[0])
    ensures NamedByService(stores[n])
  {
    if n > 0 {
      AlwaysNamed(stores, n - 1);
      var s, t := stores[n - 1], stores[n - 1 + 1];
      assert RunStep(s, t);
      if !Honest(s, t) {
        var e :| Pass(s, t, e);
        PassKeepsNames(s, t, e);
      }
    }
  }

  // ----- the managed set is the wanted set -----

  predicate IsManaged(s: Store, env: Env, k: Key) {
    && k in s.objects && k.ns == TargetNamespace(env)
    && ManagedLabels(env.key, s.objects[k].labels) && Lookup(s.objects[k].labels, Label.Service) != ""
  }

  predicate ManagedLabels(e: EnvKey, labels: Labels) {
    Bears(labels, ManagedBy, "kado-operator") && Bears(labels, Label.Environment, e.name)
  }

  // Deleted, and only kept by somebody's finalizer.
  predicate Leaving(s: Store, k: Key) {
    k in s.objects && s.objects[k].terminating && s.objects[k].finalizers != {}
  }

  lemma WantedLabels(s: Store, env: Env, k: Key)
    requires Wanted(env, k)
    ensures Goal(s, env, k).Some? && Goal(s, env, k).value.labels == EnvLabels(env, k.name)
  {
    hide DeploymentBody, ServiceBody, EnvLabels;
  }

  lemma StampManaged(env: Env, name: string)
    requires name != ""
    ensures ManagedLabels(env.key, EnvLabels(env, name)) && Lookup(EnvLabels(env, name), Label.Service) == name
  {
  }

  lemma WantedIsManaged(s: Store, t: Store, env: Env, k: Key)
    requires Wanted(env, k) && k.name != "" && AtGoal(s, t, env, k)
    ensures IsManaged(t, env, k)
  {
    WantedLabels(s, env, k);
    StampManaged(env, k.name);
    hide Goal, EnvLabels, Lookup;
  }

  // Managed, and not on its way out.
  predicate Kept(s: Store, env: Env, k: Key) {
    IsManaged(s, env, k) && !Leaving(s, k)
  }

  // A workload that a spec service has lent its label, but not its name.
  predicate Borrows(s: Store, env: Env, k: Key) {
    Kept(s, env, k) && !HasService(env.spec, k.name) && HasService(env.spec, Lookup(s.objects[k].labels, Label.Service))
  }

  // Pruning keeps a workload of a name the spec does not use exactly when it
  // was there, managed, with the label of a service the spec does have.
  lemma KeptExactly(s: Store, t: Store, env: Env, k: Key)
    requires Workload(k.kind) && !HasService(env.spec, k.name) && AtGoal(s, t, env, k)
    ensures Kept(t, env, k) <==> Borrows(s, env, k)
  {
    if k.ns == TargetNamespace(env) {
      assert Goal(s, env, k) == WorkloadGoal(s, env, k);
    }
    hide Goal, HasService, DeploymentBody, ServiceBody, SelectorBody, EnvLabels, Written;
  }

  lemma NamedBorrowsNothing(s: Store, env: Env, k: Key)
    requires NamedByService(s) && Workload(k.kind)
    ensures !Borrows(s, env, k)
  {
    hide HasService;
    if k in s.objects {
      assert Named(k, s.objects[k].labels);
    }
  }

  // Whatever is wanted is managed; and whatever is managed is wanted or on its
  // way out, exactly when nothing borrowed a label to begin with.
  lemma ManagedIsWantedExactly(s: Store, t: Store, env: Env)
    requires Reached(s, t, env)
    ensures forall k :: Wanted(env, k) && k.name != "" ==> IsManaged(t, env, k)
    ensures (forall k: Key :: Workload(k.kind) && Kept(t, env, k) ==> Wanted(env, k)) <==>
            (forall k: Key :: Workload(k.kind) ==> !Borrows(s, env, k))
  {
    hide Goal, HasService, IsManaged, Leaving;
    forall k | Wanted(env, k) && k.name != "" ensures IsManaged(t, env, k) {
      assert AtGoal(s, t, env, k);
      WantedIsManaged(s, t, env, k);
    }
    forall k: Key | Workload(k.kind) ensures Kept(t, env, k) && !Wanted(env, k) <==> Borrows(s, env, k) {
      assert AtGoal(s, t, env, k);
      KeptOrWanted(s, t, env, k);
    }
    hide Kept, Borrows;
  }

  lemma KeptOrWanted(s: Store, t: Store, env: Env, k: Key)
    requires Workload(k.kind) && AtGoal(s, t, env, k)
    ensures Kept(t, env, k) && !Wanted(env, k) <==> Borrows(s, env, k)
  {
    if !HasService(env.spec, k.name) {
      KeptExactly(s, t, env, k);
    }
    hide Goal, HasService;
  }

  lemma ManagedIsWanted(s: Store, t: Store, env: Env, k: Key)
    requires NamedByService(s) && Workload(k.kind) && k.name != "" && AtGoal(s, t, env, k)
    ensures Wanted(env, k) ==> IsManaged(t, env, k)
    ensures IsManaged(t, env, k) ==> Wanted(env, k) || Leaving(t, k)
  {
    NamedBorrowsNothing(s, env, k);
    hide Goal, HasService, IsManaged, Leaving, NamedByService, Borrows;
    KeptOrWanted(s, t, env, k);
    if Wanted(env, k) {
      WantedIsManaged(s, t, env, k);
    }
  }

  // Pruning spares whatever is not managed: a workload without our labels, or
  // with an empty service label, under a name the spec does not use is
  // touched by no pass.
  lemma UnmanagedSpared(s: Store, t: Store, e: EnvKey, k: Key)
    requires Pass(s, t, e) && e in s.records && Workload(k.kind)
    requires var env := EnvOf(e, s.records[e]); !HasService(env.spec, k.name) && !IsManaged(s, env, k)
    ensures ObjAt(t, k) == ObjAt(s, k)
  {
    if !s.records[e].deleting {
      var env := EnvOf(e, s.records[e]);
      assert StepAt(s, t, env, k);
      hide HasService, DeploymentBody, ServiceBody, SelectorBody, EnvLabels, Written;
    }
  }

  // So names and labels have to agree: a workload that borrows the label of a
  // wanted service is not even touched.
  lemma MislabelledStays(s: Store, t: Store, env: Env, k: Key)
    requires Workload(k.kind) && IsManaged(s, env, k) && !HasService(env.spec, k.name)
    requires HasService(env.spec, Lookup(s.objects[k].labels, Label.Service))
    requires AtGoal(s, t, env, k)
    ensures !NamedByService(s) && !Wanted(env, k) && IsManaged(t, env, k)
    ensures FaceAt(t, k) == FaceAt(s, k)
    ensures Kept(s, env, k) <==> Kept(t, env, k)
  {
    KeptExactly(s, t, env, k);
    assert !Named(k, s.objects[k].labels);
    assert Goal(s, env, k) == WorkloadGoal(s, env, k);
    hide HasService, DeploymentBody, ServiceBody, SelectorBody, EnvLabels, Written;
  }

  // ----- everything else -----

  lemma ExactWithin(fill: (Kind, Body) -> Body, kind: Kind, body: Body, desired: Body)
    requires Fills(fill) && Exact(fill, kind, body, desired)
    ensures Within(desired, body)
  {
    var rest :| NoneManaged(kind, rest) && body == fill(kind, rest + desired);
    assert Within(rest + desired, body);
  }

  // The ConfigMap holds the spec's config, and is there just when there is
  // some.
  ghost predicate ConfigRight(t: Store, env: Env) {
    var k := ConfigKey(env);
    if env.spec.config == map[] then k in t.objects ==> Leaving(t, k)
    else
      && k in t.objects && t.objects[k].labels == EnvLabels(env, "")
      && DataOf(t.objects[k].body) == Table(env.spec.config)
  }

  lemma ConfigContent(s: Store, t: Store, env: Env)
    requires Fills(s.fill) && t.fill == s.fill && AtGoal(s, t, env, ConfigKey(env))
    ensures ConfigRight(t, env)
  {
    hide Written;
    if env.spec.config != map[] {
      WrittenHeld(s, t, ConfigKey(env), EnvLabels(env, ""), ConfigBody(env), map[]);
      hide EnvLabels, Exact;
      ExactWithin(t.fill, ConfigMap, t.objects[ConfigKey(env)].body, ConfigBody(env));
      assert ConfigBody(env)[Data] == Table(env.spec.config);
    }
  }

  // The copy is ours and equal to its source in type and data.
  predicate CopyRight(t: Store, env: Env, name: string) {
    var from, to := SourceKey(env, name), CopyKey(env, name);
    && from in t.objects && to in t.objects
    && OwnedBy(t.objects[to].labels, env.key)
    && TypeOf(t.objects[to].body) == TypeOf(t.objects[from].body)
    && DataOf(t.objects[to].body) == DataOf(t.objects[from].body)
    && (name in PullNames(env.spec) ==> DockerAuth(TypeOf(t.objects[to].body)))
  }

  lemma CopyContent(s: Store, t: Store, env: Env, name: string, open: bool)
    requires Fills(s.fill) && Between(s, t, env)
    requires name in ReferencedNames(env.spec) && SecretAllowed(s, env, name, open)
    requires AtGoal(s, t, env, CopyKey(env, name))
    ensures CopyRight(t, env, name)
  {
    var src := s.objects[SourceKey(env, name)].body;
    CopyKeyGoal(s, env, name);
    SourceKept(s, t, env, name);
    CopyAgrees(s.fill, env, TypeOf(src), DataOf(src), FaceAt(s, CopyKey(env, name)));
    CopyAgrees(s.fill, env, TypeOf(src), DataOf(src), None);
    hide Goal, Fills, Between, EnvLabels, Written, OwnedBy, ReferencedNames;
  }

  lemma NamespaceContent(s: Store, t: Store, env: Env)
    requires NsMine(s, env) && AtGoal(s, t, env, NsKey(TargetNamespace(env)))
    ensures NsOwned(t, env)
  {
    StampedIsOwned(env, "", map[]);
    if NsKey(TargetNamespace(env)) in s.objects {
      StampedIsOwned(env, "", s.objects[NsKey(TargetNamespace(env))].labels);
    }
    hide EnvLabels, OwnedBy;
  }

  lemma ClaimContent(s: Store, t: Store, env: Env)
    requires env.spec.storage.Some? && AtGoal(s, t, env, ClaimKey(env))
    ensures ClaimKey(env) in t.objects
  {
  }

  // All the spec asks for, and no more.
  ghost predicate Converged(t: Store, env: Env) {
    && NsOwned(t, env)
    && ConfigRight(t, env)
    && (forall n :: n in ReferencedNames(env.spec) ==> CopyRight(t, env, n))
    && (env.spec.storage.Some? ==> ClaimKey(env) in t.objects)
    && (forall svc :: svc in env.spec.services ==> ServiceRight(t, env, svc))
    && (forall k: Key :: Workload(k.kind) && k.name != "" ==>
          && (Wanted(env, k) ==> IsManaged(t, env, k))
          && (IsManaged(t, env, k) ==> Wanted(env, k) || Leaving(t, k)))
  }

  ghost predicate ServiceRight(t: Store, env: Env, svc: ServiceSpec) {
    && Holds(t, DeployKey(env, svc.name), EnvLabels(env, svc.name), DeploymentBody(env, svc))
    && Holds(t, ServiceKey(env, svc.name), EnvLabels(env, svc.name), ServiceBody(env, svc))
  }

  lemma ReachedConverged(s: Store, t: Store, env: Env)
    requires Fills(s.fill) && UniqueNames(env.spec) && NamedByService(s)
    requires Succeeds(s, env) && Between(s, t, env) && Reached(s, t, env)
    ensures Converged(t, env)
  {
    forall k ensures AtGoal(s, t, env, k) {
    }
    NamespaceContent(s, t, env);
    ConfigContent(s, t, env);
    if env.spec.storage.Some? {
      ClaimContent(s, t, env);
    }
    hide Goal, Between, Reached, AtGoal, Fills, NamedByService, UniqueNames, Wanted, IsManaged, Leaving, ConfigRight,
         NsOwned, CopyRight, ServiceRight, SecretAllowed;
    forall n | n in ReferencedNames(env.spec) ensures CopyRight(t, env, n) {
      CopyContent(s, t, env, n, NsOpen(s, env));
    }
    forall svc | svc in env.spec.services ensures ServiceRight(t, env, svc) {
      ServiceRightAt(s, t, env, svc);
    }
    forall k: Key | Workload(k.kind) && k.name != ""
      ensures (Wanted(env, k) ==> IsManaged(t, env, k)) && (IsManaged(t, env, k) ==> Wanted(env, k) || Leaving(t, k))
    {
      ManagedIsWanted(s, t, env, k);
    }
  }

  lemma ServiceRightAt(s: Store, t: Store, env: Env, svc: ServiceSpec)
    requires Between(s, t, env) && UniqueNames(env.spec) && svc in env.spec.services
    requires AtGoal(s, t, env, DeployKey(env, svc.name)) && AtGoal(s, t, env, ServiceKey(env, svc.name))
    ensures ServiceRight(t, env, svc)
  {
    ServiceContent(s, t, env, svc);
  }

  // From any store a run can lead to, a pass that reports no error leaves the
  // target namespace as the spec asks.
  lemma Convergence(stores: seq<Store>, n: nat, t: Store, e: EnvKey, seen: Observation, now: nat, requeue: bool)
    requires Run(stores) && n < |stores| && NamedByService(stores[0])
    requires var s := stores[n];
             && Valid(s) && Pass(s, t, e) && e in s.records && !s.records[e].deleting && UniqueNames(s.records[e].spec)
             && ProvisionSuccess(s, t, e, seen, now, requeue)
    ensures Converged(t, EnvOf(e, stores[n].records[e]))
  {
    AlwaysNamed(stores, n);
    hide Reached, Between, SupportFirst, Succeeds, NamedByService, Run, UniqueNames;
    ReachedConverged(stores[n], t, EnvOf(e, stores[n].records[e]));
  }
}
