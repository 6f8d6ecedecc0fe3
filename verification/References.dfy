// controller.go:519-536, 642-652 and 1123-1187: what the Deployments refer
// to, and that it is there.
module References {
  import opened Types
  import opened Server
  import opened Goals
  import opened Steps
  import opened Passes
  import opened Convergence

  // ----- names -----

  // Inheriting the environment's pull secrets or overriding them, a service
  // only ever uses names that are copied.
  lemma ResolutionCovered(spec: EnvSpec, svc: ServiceSpec, n: string)
    requires svc in spec.services
    ensures n in PullSecretsOf(spec, svc) ==> n in PullNames(spec) && n in ReferencedNames(spec)
    ensures n in svc.secretRefs ==> n in ReferencedNames(spec)
  {
  }

  // A pull secret no service resolves to is one the environment lists and
  // every service overrides.
  lemma CopiedButUnused(spec: EnvSpec, n: string)
    requires n in PullNames(spec)
    ensures (forall svc :: svc in spec.services ==> n !in PullSecretsOf(spec, svc)) <==>
            n in spec.pullSecrets
            && (forall svc :: svc in spec.services ==> svc.pullSecrets != [] && n !in svc.pullSecrets)
  {
    if forall svc :: svc in spec.services ==> n !in PullSecretsOf(spec, svc) {
      forall svc | svc in spec.services ensures n !in svc.pullSecrets {
        assert n !in PullSecretsOf(spec, svc);
      }
    } else {
      var svc :| svc in spec.services && n in PullSecretsOf(spec, svc);
    }
  }

  // ----- references in stored content -----

  function SourceRef(ns: string, src: Source): Key {
    match src
    case FromConfigMap(n) => Key(ConfigMap, ns, n)
    case FromSecret(n) => Key(Secret, ns, n)
  }

  function EnvFromRefs(ns: string, body: Body): set<Key> {
    if Container(EnvFrom) in body && body[Container(EnvFrom)].Sources? then
      set src | src in body[Container(EnvFrom)].sources :: SourceRef(ns, src)
    else {}
  }

  function PullRefs(ns: string, body: Body): set<Key> {
    if PullSecrets in body && body[PullSecrets].Names? then
      set n | n in body[PullSecrets].names :: Key(Secret, ns, n)
    else {}
  }

  function VolumeRefs(ns: string, body: Body): set<Key> {
    if Volumes in body && body[Volumes].Word? then {Key(Claim, ns, body[Volumes].text)} else {}
  }

  // Every object the pods of a Deployment need to start.
  function Refs(ns: string, body: Body): set<Key> {
    EnvFromRefs(ns, body) + PullRefs(ns, body) + VolumeRefs(ns, body)
  }

  // The server makes up no references of its own.
  ghost predicate NoOwnRefs(fill: (Kind, Body) -> Body) {
    && NotDefaulted(fill, Deployment, Container(EnvFrom))
    && NotDefaulted(fill, Deployment, PullSecrets)
    && NotDefaulted(fill, Deployment, Volumes)
  }

  // What the pods need is there, and what they pull images with is of a type
  // the kubelet honours.
  ghost predicate Resolved(t: Store, ns: string, body: Body) {
    && (forall k :: k in Refs(ns, body) ==> k in t.objects)
    && (forall k :: k in PullRefs(ns, body) ==> k in t.objects && DockerAuth(TypeOf(t.objects[k].body)))
  }

  lemma ContainerRefs(env: Env, svc: ServiceSpec)
    ensures var body := ContainerBody(env, svc);
            && (forall f :: f in body ==> f.Container?)
            && (Container(EnvFrom) in body ==> body[Container(EnvFrom)] == Sources(EnvSources(env, svc)))
  {
    ContainerFields(env, svc);
    OptionalRefs(env, svc);
    hide FixedFields, OptionalFields;
  }

  lemma OptionalRefs(env: Env, svc: ServiceSpec)
    ensures Container(EnvFrom) in OptionalFields(env, svc) ==>
              OptionalFields(env, svc)[Container(EnvFrom)] == Sources(EnvSources(env, svc))
  {
    hide ReadinessProbe, EnvSources, Mounting;
  }

  lemma PodRefs(env: Env, svc: ServiceSpec)
    ensures var body := PodBody(env, svc);
            && (forall f :: f in body ==> f == PullSecrets || f == Volumes || f == FsGroup)
            && (PullSecrets in body ==> body[PullSecrets] == Names(PullSecretsOf(env.spec, svc)))
            && (Volumes in body ==> body[Volumes] == Word(ClaimName(env.key)) && env.spec.storage.Some?)
  {
    hide PullSecretsOf, ClaimName;
  }

  lemma WantedRefFields(env: Env, svc: ServiceSpec, f: Field)
    requires f == Container(EnvFrom) || f == PullSecrets || f == Volumes
    ensures Managed(Deployment, f)
    ensures f in DeploymentBody(env, svc) ==>
              DeploymentBody(env, svc)[f] ==
              if f == PullSecrets then Names(PullSecretsOf(env.spec, svc))
              else if f == Volumes then Word(ClaimName(env.key))
              else Sources(EnvSources(env, svc))
    ensures f == Volumes && f in DeploymentBody(env, svc) ==> env.spec.storage.Some?
  {
    ContainerRefs(env, svc);
    PodRefs(env, svc);
    hide EnvLabels, ContainerBody, PodBody, PullSecretsOf, ClaimName, EnvSources;
  }

  lemma RefField(t: Store, env: Env, svc: ServiceSpec, body: Body, f: Field)
    requires Fills(t.fill) && NoOwnRefs(t.fill) && Exact(t.fill, Deployment, body, DeploymentBody(env, svc))
    requires f == Container(EnvFrom) || f == PullSecrets || f == Volumes
    requires f in body
    ensures body[f] ==
            if f == PullSecrets then Names(PullSecretsOf(env.spec, svc))
            else if f == Volumes then Word(ClaimName(env.key))
            else Sources(EnvSources(env, svc))
    ensures f == Volumes ==> env.spec.storage.Some?
  {
    WantedRefFields(env, svc, f);
    hide DeploymentBody, Exact, Fills, PullSecretsOf, EnvSources;
    FieldExact(t.fill, Deployment, body, DeploymentBody(env, svc), f);
  }

  // Everything a workload may refer to.
  ghost predicate Supplied(t: Store, env: Env) {
    && (env.spec.config != map[] ==> ConfigKey(env) in t.objects)
    && (env.spec.storage.Some? ==> ClaimKey(env) in t.objects)
    && (forall n :: n in ReferencedNames(env.spec) ==> CopyRight(t, env, n))
  }

  lemma SuppliedResolves(t: Store, env: Env, svc: ServiceSpec, body: Body)
    requires Fills(t.fill) && NoOwnRefs(t.fill) && svc in env.spec.services
    requires Exact(t.fill, Deployment, body, DeploymentBody(env, svc)) && Supplied(t, env)
    ensures Resolved(t, TargetNamespace(env), body)
  {
    var ns := TargetNamespace(env);
    hide Exact, DeploymentBody, Fills, NoOwnRefs, OwnedBy;
    forall k | k in EnvFromRefs(ns, body) ensures k in t.objects {
      RefField(t, env, svc, body, Container(EnvFrom));
      var src :| src in EnvSources(env, svc) && k == SourceRef(ns, src);
      if src.FromSecret? {
        ResolutionCovered(env.spec, svc, src.name);
        assert k == CopyKey(env, src.name);
      }
    }
    forall k | k in PullRefs(ns, body) ensures k in t.objects && DockerAuth(TypeOf(t.objects[k].body)) {
      RefField(t, env, svc, body, PullSecrets);
      ResolutionCovered(env.spec, svc, k.name);
      assert k == CopyKey(env, k.name);
    }
    forall k | k in VolumeRefs(ns, body) ensures k in t.objects {
      RefField(t, env, svc, body, Volumes);
    }
  }

  // ----- closure -----

  lemma ConvergedSupplied(t: Store, env: Env)
    requires Converged(t, env)
    ensures Supplied(t, env)
  {
  }

  // After a pass that reports no error, everything the wanted Deployments
  // refer to exists.
  lemma ReferentialClosure(t: Store, env: Env, svc: ServiceSpec)
    requires Fills(t.fill) && NoOwnRefs(t.fill) && Converged(t, env) && svc in env.spec.services
    ensures DeployKey(env, svc.name) in t.objects
    ensures Resolved(t, TargetNamespace(env), t.objects[DeployKey(env, svc.name)].body)
  {
    ConvergedSupplied(t, env);
    assert ServiceRight(t, env, svc);
    hide Resolved, Converged, DeploymentBody, ServiceBody, Supplied, NoOwnRefs;
    SuppliedResolves(t, env, svc, t.objects[DeployKey(env, svc.name)].body);
  }

  lemma SupportSupplied(s: Store, t: Store, env: Env)
    requires Fills(s.fill) && Between(s, t, env) && SupportSucceeds(s, env)
    requires forall k :: Supports(k) ==> AtGoal(s, t, env, k)
    ensures Supplied(t, env)
  {
    ConfigContent(s, t, env);
    if env.spec.storage.Some? {
      ClaimContent(s, t, env);
    }
    hide Goal, Between, AtGoal, Fills, CopyRight, SecretAllowed;
    forall n | n in ReferencedNames(env.spec) ensures CopyRight(t, env, n) {
      CopyContent(s, t, env, n, NsOpen(s, env));
    }
  }

  lemma ChangedIsExact(s: Store, t: Store, env: Env, svc: ServiceSpec)
    requires Between(s, t, env) && UniqueNames(env.spec) && svc in env.spec.services
    requires var k := DeployKey(env, svc.name); k in t.objects && ObjAt(t, k) != ObjAt(s, k)
    ensures Exact(t.fill, Deployment, t.objects[DeployKey(env, svc.name)].body, DeploymentBody(env, svc))
  {
    ChangedAtGoal(s, t, env, DeployKey(env, svc.name));
    hide DeploymentBody, Between, Goal, UniqueNames, Exact, EnvLabels, TargetNamespace;
    DeploymentContent(s, t, env, svc);
  }

  lemma ChangedAtGoal(s: Store, t: Store, env: Env, k: Key)
    requires Between(s, t, env) && k.kind != Secret && ObjAt(t, k) != ObjAt(s, k)
    ensures AtGoal(s, t, env, k) && t.fill == s.fill
  {
    assert StepAt(s, t, env, k);
    hide Goal;
  }

  // And at no point of any pass, even one that fails or is cut off, does it
  // write a Deployment that refers to something that is not there.
  lemma NeverDangling(s: Store, t: Store, e: EnvKey, svc: ServiceSpec)
    requires Fills(s.fill) && NoOwnRefs(s.fill) && Pass(s, t, e) && e in s.records && !s.records[e].deleting
    requires UniqueNames(s.records[e].spec) && svc in s.records[e].spec.services
    requires var k := DeployKey(EnvOf(e, s.records[e]), svc.name);
             k in t.objects && ObjAt(t, k) != ObjAt(s, k)
    ensures var env := EnvOf(e, s.records[e]);
            Resolved(t, TargetNamespace(env), t.objects[DeployKey(env, svc.name)].body)
  {
    var env := EnvOf(e, s.records[e]);
    var k := DeployKey(env, svc.name);
    ChangedIsExact(s, t, env, svc);
    assert !Supports(k);
    hide Resolved, Exact, DeploymentBody, NoOwnRefs, Between, Fills, Goal, SupportSucceeds, UniqueNames, Supplied;
    SupportSupplied(s, t, env);
    SuppliedResolves(t, env, svc, t.objects[k].body);
  }
}
