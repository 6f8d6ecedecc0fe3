// controller.go:205-263, 405-484, 505-652 and 1093-1106: what the stored objects
// of an environment say, field by field as the spec has it.
module Content {
  import opened Text
  import opened Types
  import opened Server
  import opened Goals
  import opened Steps
  import opened Convergence
  import opened References
  import opened Workloads
  import opened Plain

  // ----- a Deployment -----

  predicate Shows(body: Body, f: Field, present: bool, v: Value) {
    if present then f in body && body[f] == v else f !in body
  }

  predicate Mounting(spec: EnvSpec, svc: ServiceSpec) {
    svc.mountPath != "" && spec.storage.Some?
  }

  // A service's own pull secrets take the place of the environment's.
  predicate PullsBy(spec: EnvSpec, svc: ServiceSpec, names: seq<string>) {
    if svc.pullSecrets == [] then names == spec.pullSecrets else names == svc.pullSecrets
  }

  // The config map first, if there is one, then the Secrets in their order.
  predicate Reads(e: EnvKey, spec: EnvSpec, svc: ServiceSpec, sources: seq<Source>) {
    var first := if spec.config == map[] then 0 else 1;
    && |sources| == first + |svc.secretRefs|
    && (first == 1 ==> sources[0] == FromConfigMap(e.name + "-config"))
    && (forall i :: 0 <= i < |svc.secretRefs| ==> sources[first + i] == FromSecret(svc.secretRefs[i]))
  }

  // The probe asked for, on the service's own port if it says nothing else.
  predicate Probes(svc: ServiceSpec, v: Value) {
    && svc.probe.Some? && v.Probing? && v.probe.timing == svc.probe.value.timing
    && v.probe.handler == (if svc.probe.value.handler.Some? then svc.probe.value.handler else Some(Tcp(svc.port)))
  }

  // What is always there.
  predicate FixedAs(body: Body, e: EnvKey, spec: EnvSpec, svc: ServiceSpec) {
    && (svc.replicas.Some? ==> Shows(body, Replicas, true, Number(svc.replicas.value)))
    && Shows(body, Container(Name), true, Word(svc.name))
    && Shows(body, Container(Image), true, Word(Registry.ImageRef(spec.registry, svc.registry, svc.image)))
    && Shows(body, Container(Port), true, Number(svc.port))
    && Shows(body, Container(Resources), true, Word(svc.resources))
    && TemplateLabels in body && body[TemplateLabels].LabelSet?
    && LabelledFor(body[TemplateLabels].labels, e, spec, svc.name)
  }

  // What is there just when the spec asks for it.
  predicate ContainerAs(body: Body, e: EnvKey, spec: EnvSpec, svc: ServiceSpec) {
    && Shows(body, Container(Variables), svc.variables != map[], Table(svc.variables))
    && Shows(body, Container(Mounts), Mounting(spec, svc), Word(svc.mountPath))
    && (Container(EnvFrom) in body <==> spec.config != map[] || svc.secretRefs != [])
    && (Container(EnvFrom) in body ==>
          body[Container(EnvFrom)].Sources? && Reads(e, spec, svc, body[Container(EnvFrom)].sources))
    && (Container(Readiness) in body <==> svc.probe.Some?)
    && (Container(Readiness) in body ==> Probes(svc, body[Container(Readiness)]))
  }

  predicate PodAs(body: Body, e: EnvKey, spec: EnvSpec, svc: ServiceSpec) {
    && Shows(body, Volumes, Mounting(spec, svc), Word(e.name + "-workspace"))
    && (FsGroup in body <==> Mounting(spec, svc) && spec.storage.value.fsGroup.Some?)
    && (FsGroup in body ==> body[FsGroup] == Number(spec.storage.value.fsGroup.value))
    && (PullSecrets in body <==> svc.pullSecrets != [] || spec.pullSecrets != [])
    && (PullSecrets in body ==> body[PullSecrets].Names? && PullsBy(spec, svc, body[PullSecrets].names))
  }

  predicate SameField(a: Body, b: Body, f: Field) {
    (f in a <==> f in b) && (f in b ==> a[f] == b[f])
  }

  // Which part of a Deployment a field comes from.
  lemma DeploymentPart(env: Env, svc: ServiceSpec, f: Field)
    ensures f.Container? ==> SameField(DeploymentBody(env, svc), ContainerBody(env, svc), f)
    ensures f == Volumes || f == FsGroup || f == PullSecrets ==>
              SameField(DeploymentBody(env, svc), PodBody(env, svc), f)
  {
    hide ContainerBody, PodBody, EnvLabels;
    ContainerRefs(env, svc);
    PodRefs(env, svc);
  }

  lemma DeploymentHead(env: Env, svc: ServiceSpec)
    ensures Shows(DeploymentBody(env, svc), TemplateLabels, true, LabelSet(EnvLabels(env, svc.name)))
    ensures svc.replicas.Some? ==> Shows(DeploymentBody(env, svc), Replicas, true, Number(svc.replicas.value))
    ensures svc.replicas.None? ==> Replicas !in DeploymentBody(env, svc)
  {
    hide ContainerBody, PodBody, EnvLabels;
    ContainerRefs(env, svc);
    PodRefs(env, svc);
  }

  predicate FixedPart(part: Part) {
    part == Name || part == Image || part == Port || part == Resources
  }

  lemma ContainerPart(env: Env, svc: ServiceSpec, part: Part)
    ensures FixedPart(part) ==> SameField(DeploymentBody(env, svc), FixedFields(env, svc), Container(part))
    ensures !FixedPart(part) ==> SameField(DeploymentBody(env, svc), OptionalFields(env, svc), Container(part))
  {
    hide DeploymentBody, FixedFields, OptionalFields;
    DeploymentPart(env, svc, Container(part));
    ContainerFields(env, svc);
  }

  lemma FixedFieldsAre(env: Env, svc: ServiceSpec)
    ensures var body := FixedFields(env, svc);
            && Shows(body, Container(Name), true, Word(svc.name))
            && Shows(body, Container(Image), true, Word(Registry.ImageRef(env.spec.registry, svc.registry, svc.image)))
            && Shows(body, Container(Port), true, Number(svc.port))
            && Shows(body, Container(Resources), true, Word(svc.resources))
  {
    hide Registry.ImageRef;
  }

  lemma FixedFieldsAs(env: Env, svc: ServiceSpec)
    ensures FixedAs(DeploymentBody(env, svc), env.key, env.spec, svc)
  {
    hide DeploymentBody, ContainerBody, FixedFields, EnvLabels, LabelledFor, Registry.ImageRef;
    LabelledExactly(EnvLabels(env, svc.name), env.key, env.spec, svc.name);
    DeploymentHead(env, svc);
    FixedFieldsAre(env, svc);
    ContainerPart(env, svc, Name);
    ContainerPart(env, svc, Image);
    ContainerPart(env, svc, Port);
    ContainerPart(env, svc, Resources);
  }

  lemma SourcesAs(env: Env, svc: ServiceSpec)
    ensures EnvSources(env, svc) != [] <==> env.spec.config != map[] || svc.secretRefs != []
    ensures Reads(env.key, env.spec, svc, EnvSources(env, svc))
  {
  }

  lemma ProbeAs(svc: ServiceSpec)
    ensures ReadinessProbe(svc).Some? <==> svc.probe.Some?
    ensures svc.probe.Some? ==> Probes(svc, Probing(ReadinessProbe(svc).value))
  {
  }

  lemma OptionalFieldsAs(env: Env, svc: ServiceSpec)
    ensures ContainerAs(OptionalFields(env, svc), env.key, env.spec, svc)
  {
    SourcesAs(env, svc);
    ProbeAs(svc);
    hide EnvSources, ReadinessProbe, Reads, Probes;
  }

  lemma ContainerFieldsAs(env: Env, svc: ServiceSpec)
    ensures ContainerAs(DeploymentBody(env, svc), env.key, env.spec, svc)
  {
    hide DeploymentBody, ContainerBody, OptionalFields, Reads, Probes;
    OptionalFieldsAs(env, svc);
    ContainerPart(env, svc, Variables);
    ContainerPart(env, svc, EnvFrom);
    ContainerPart(env, svc, Mounts);
    ContainerPart(env, svc, Readiness);
  }

  lemma PodFieldsAs(env: Env, svc: ServiceSpec)
    ensures PodAs(PodBody(env, svc), env.key, env.spec, svc)
  {
  }

  lemma PodOfDeployment(env: Env, svc: ServiceSpec)
    ensures PodAs(DeploymentBody(env, svc), env.key, env.spec, svc)
  {
    hide DeploymentBody, PodBody, PullsBy;
    PodFieldsAs(env, svc);
    DeploymentPart(env, svc, Volumes);
    DeploymentPart(env, svc, FsGroup);
    DeploymentPart(env, svc, PullSecrets);
  }

  // The server makes up nothing of what is there on request.
  ghost predicate NoOwnFields(fill: (Kind, Body) -> Body) {
    && NoOwnRefs(fill) && NoOwnVolumes(fill)
    && NotDefaulted(fill, Deployment, Container(Variables))
    && NotDefaulted(fill, Deployment, Container(Readiness))
  }

  lemma FixedKept(fill: (Kind, Body) -> Body, body: Body, desired: Body, e: EnvKey, spec: EnvSpec, svc: ServiceSpec)
    requires Fills(fill) && Exact(fill, Deployment, body, desired) && FixedAs(desired, e, spec, svc)
    ensures FixedAs(body, e, spec, svc)
  {
    ExactWithin(fill, Deployment, body, desired);
    hide Fills, Exact, LabelledFor, Registry.ImageRef;
  }

  lemma ContainerKept(fill: (Kind, Body) -> Body, body: Body, desired: Body, e: EnvKey, spec: EnvSpec, svc: ServiceSpec)
    requires Fills(fill) && NoOwnFields(fill) && Exact(fill, Deployment, body, desired)
    requires ContainerAs(desired, e, spec, svc)
    ensures ContainerAs(body, e, spec, svc)
  {
    hide Fills, Exact, NotDefaulted, Reads, Probes;
    FieldExact(fill, Deployment, body, desired, Container(Variables));
    FieldExact(fill, Deployment, body, desired, Container(Mounts));
    FieldExact(fill, Deployment, body, desired, Container(EnvFrom));
    FieldExact(fill, Deployment, body, desired, Container(Readiness));
  }

  lemma PodKept(fill: (Kind, Body) -> Body, body: Body, desired: Body, e: EnvKey, spec: EnvSpec, svc: ServiceSpec)
    requires Fills(fill) && NoOwnFields(fill) && Exact(fill, Deployment, body, desired) && PodAs(desired, e, spec, svc)
    ensures PodAs(body, e, spec, svc)
  {
    hide Fills, Exact, NotDefaulted, PullsBy;
    FieldExact(fill, Deployment, body, desired, Volumes);
    FieldExact(fill, Deployment, body, desired, FsGroup);
    FieldExact(fill, Deployment, body, desired, PullSecrets);
  }

  // The stored Deployment of a service is what the spec says of it: replicas,
  // labels, image, port and resources; variables, sources of environment,
  // mount and probe; volume, group and pull secrets - each just when asked for.
  lemma DeploymentAsAsked(t: Store, e: EnvKey, spec: EnvSpec, svc: ServiceSpec, ns: string)
    requires Fills(t.fill) && NoOwnFields(t.fill) && ServiceRight(t, Env(e, spec), svc) && IsTarget(ns, e, spec)
    ensures var k := Key(Deployment, ns, svc.name);
            && k in t.objects && LabelledFor(t.objects[k].labels, e, spec, svc.name)
            && FixedAs(t.objects[k].body, e, spec, svc)
            && ContainerAs(t.objects[k].body, e, spec, svc)
            && PodAs(t.objects[k].body, e, spec, svc)
            && (svc.replicas.None? && NotDefaulted(t.fill, Deployment, Replicas) ==> Replicas !in t.objects[k].body)
  {
    var env := Env(e, spec);
    hide Fills, NoOwnFields, Exact, NotDefaulted, DeploymentBody, ServiceBody, EnvLabels, FixedAs, ContainerAs, PodAs,
         IsTarget, LabelledFor, TargetNamespace;
    IsTargetExactly(ns, e, spec);
    LabelledExactly(EnvLabels(env, svc.name), e, spec, svc.name);
    FixedFieldsAs(env, svc);
    ContainerFieldsAs(env, svc);
    PodOfDeployment(env, svc);
    var body := t.objects[Key(Deployment, ns, svc.name)].body;
    FixedKept(t.fill, body, DeploymentBody(env, svc), e, spec, svc);
    ContainerKept(t.fill, body, DeploymentBody(env, svc), e, spec, svc);
    PodKept(t.fill, body, DeploymentBody(env, svc), e, spec, svc);
    DeploymentHead(env, svc);
    if NotDefaulted(t.fill, Deployment, Replicas) {
      FieldExact(t.fill, Deployment, body, DeploymentBody(env, svc), Replicas);
    }
  }

  // ----- a Service -----

  predicate SelectsBy(labels: Labels, e: EnvKey, service: string) {
    && Bears(labels, Label.Environment, e.name) && Bears(labels, Label.Service, service)
    && forall l :: l in labels ==> l == Label.Environment || l == Label.Service
  }

  lemma SelectsExactly(env: Env, name: string)
    ensures SelectsBy(SelectorLabels(env, name), env.key, name)
  {
  }

  lemma ServiceAsAsked(t: Store, e: EnvKey, spec: EnvSpec, svc: ServiceSpec, ns: string)
    requires Fills(t.fill) && ServiceRight(t, Env(e, spec), svc) && IsTarget(ns, e, spec)
    ensures var k := Key(Kind.Service, ns, svc.name);
            && k in t.objects && LabelledFor(t.objects[k].labels, e, spec, svc.name)
            && var body := t.objects[k].body;
            && Shows(body, ServiceType, true, Word("ClusterIP")) && Shows(body, Ports, true, Number(svc.port))
            && ServiceSelector in body && body[ServiceSelector].LabelSet?
            && SelectsBy(body[ServiceSelector].labels, e, svc.name)
  {
    var env := Env(e, spec);
    IsTargetExactly(ns, e, spec);
    LabelledExactly(EnvLabels(env, svc.name), e, spec, svc.name);
    SelectsExactly(env, svc.name);
    hide Fills, Exact, DeploymentBody, EnvLabels, SelectorLabels, SelectsBy, IsTarget, LabelledFor, TargetNamespace;
    ExactWithin(t.fill, Kind.Service, t.objects[Key(Kind.Service, ns, svc.name)].body, ServiceBody(env, svc));
    assert ServiceSelector in ServiceBody(env, svc) && ServiceType in ServiceBody(env, svc) &&
           Ports in ServiceBody(env, svc);
  }

  // A new Deployment selects by what its Service does; one that is there keeps
  // its selector, which cannot be changed.
  lemma SelectorAsCreated(s: Store, t: Store, e: EnvKey, spec: EnvSpec, svc: ServiceSpec, ns: string)
    requires Fills(s.fill) && t.fill == s.fill && UniqueNames(spec) && svc in spec.services && IsTarget(ns, e, spec)
    requires AtGoal(s, t, Env(e, spec), Key(Deployment, ns, svc.name))
    ensures var k := Key(Deployment, ns, svc.name);
            && k in t.objects
            && (k !in s.objects ==>
                  && Selector in t.objects[k].body && t.objects[k].body[Selector].LabelSet?
                  && SelectsBy(t.objects[k].body[Selector].labels, e, svc.name))
            && (k in s.objects ==>
                  && (Selector in t.objects[k].body <==> Selector in s.objects[k].body)
                  && (Selector in s.objects[k].body ==> t.objects[k].body[Selector] == s.objects[k].body[Selector]))
  {
    var env := Env(e, spec);
    hide Goal, DeploymentBody, ServiceBody, EnvLabels, UniqueNames, IsTarget, SelectsBy, SelectorLabels,
         TargetNamespace;
    IsTargetExactly(ns, e, spec);
    SelectsExactly(env, svc.name);
    DesiredIsManaged(env, svc);
    WantedGoal(s, env, svc);
    SelectorApplied(s.fill, FaceAt(s, Key(Deployment, ns, svc.name)), EnvLabels(env, svc.name),
                    DeploymentBody(env, svc),
                    SelectorBody(env, svc));
  }

  lemma SelectorApplied(fill: (Kind, Body) -> Body, was: Option<Obj>, labels: Labels, desired: Body, onCreate: Body)
    requires Fills(fill) && OnlyManaged(Deployment, desired) && Selector in onCreate
    ensures var body := Written(fill, Deployment, was, labels, desired, onCreate).body;
            && (was.None? ==> Selector in body && body[Selector] == onCreate[Selector])
            && (was.Some? ==>
                  && (Selector in body <==> Selector in was.value.body)
                  && (Selector in was.value.body ==> body[Selector] == was.value.body[Selector]))
  {
    assert !Managed(Deployment, Selector);
    match was
    case None =>
      var asked := Apply(Deployment, map[], desired) + onCreate;
      assert Server.Within(asked, fill(Deployment, asked)) && Selector in asked;
    case Some(o) =>
      var asked := Apply(Deployment, o.body, desired);
      assert Server.Within(asked, fill(Deployment, asked));
      assert Selector in asked <==> Selector in o.body;
  }

  // ----- the rest of an environment -----

  // Under its own name, owned, and equal in type and data to the Secret of the
  // same name beside the record; of a docker type if images are pulled with it.
  predicate CopyAs(t: Store, e: EnvKey, spec: EnvSpec, ns: string, name: string) {
    var from, to := Key(Secret, e.ns, name), Key(Secret, ns, name);
    && from in t.objects && to in t.objects && Stamped(t.objects[to].labels, e)
    && TypeOf(t.objects[to].body) == TypeOf(t.objects[from].body)
    && DataOf(t.objects[to].body) == DataOf(t.objects[from].body)
    && (PullsWith(spec, name) ==> DockerType(TypeOf(t.objects[to].body)))
  }

  predicate ConfigAs(t: Store, e: EnvKey, spec: EnvSpec, ns: string) {
    var k := Key(ConfigMap, ns, e.name + "-config");
    if spec.config == map[] then
      k in t.objects ==> t.objects[k].terminating && t.objects[k].finalizers != {}
    else
      && k in t.objects && LabelledFor(t.objects[k].labels, e, spec, "")
      && DataOf(t.objects[k].body) == Table(spec.config)
  }

  // What a pass that reports no error leaves beside the workloads: a namespace
  // of its own, the config, every Secret the spec mentions, and the claim.
  lemma SurroundingsAsAsked(t: Store, e: EnvKey, spec: EnvSpec, ns: string)
    requires Converged(t, Env(e, spec)) && IsTarget(ns, e, spec) && e.name != "" && e.ns != ""
    ensures NsKey(ns) in t.objects && Stamped(t.objects[NsKey(ns)].labels, e)
    ensures ConfigAs(t, e, spec, ns)
    ensures forall n :: Mentions(spec, n) ==> CopyAs(t, e, spec, ns, n)
    ensures spec.storage.Some? ==> Key(Claim, ns, e.name + "-workspace") in t.objects
  {
    var env := Env(e, spec);
    hide ServiceRight, IsManaged, Leaving, IsTarget, LabelledFor, Mentions, EnvLabels, OwnedBy, Stamped, DockerAuth,
         DockerType, PullsWith, TargetNamespace, ReferencedNames, PullNames;
    IsTargetExactly(ns, e, spec);
    StampedExactly(t.objects[NsKey(ns)].labels, e);
    ConfigContentAs(t, e, spec, ns);
    forall n | Mentions(spec, n) ensures CopyAs(t, e, spec, ns, n) {
      MentionsExactly(spec, n);
      assert CopyRight(t, env, n);
      StampedExactly(t.objects[CopyKey(env, n)].labels, e);
      DockerTypeExactly(TypeOf(t.objects[CopyKey(env, n)].body));
    }
  }

  lemma ConfigContentAs(t: Store, e: EnvKey, spec: EnvSpec, ns: string)
    requires ConfigRight(t, Env(e, spec)) && IsTarget(ns, e, spec)
    ensures ConfigAs(t, e, spec, ns)
  {
    IsTargetExactly(ns, e, spec);
    LabelledExactly(EnvLabels(Env(e, spec), ""), e, spec, "");
    hide IsTarget, LabelledFor, EnvLabels, TargetNamespace;
  }

  // The labels of the namespace: those of the environment, and if it was there
  // before, whatever else it bore.
  lemma NamespaceAsAsked(s: Store, t: Store, e: EnvKey, spec: EnvSpec, ns: string)
    requires IsTarget(ns, e, spec) && e.name != "" && e.ns != ""
    requires AtGoal(s, t, Env(e, spec), NsKey(ns))
    requires NsKey(ns) in s.objects ==> Stamped(s.objects[NsKey(ns)].labels, e)
    ensures NsKey(ns) in t.objects
    ensures var now := t.objects[NsKey(ns)].labels;
            && Stamped(now, e) && (spec.owner != "" ==> Bears(now, Owner, spec.owner))
            && (NsKey(ns) !in s.objects ==> LabelledFor(now, e, spec, ""))
            && (NsKey(ns) in s.objects ==>
                  forall l :: (l in now <==> l in s.objects[NsKey(ns)].labels || (l == Owner && spec.owner != ""))
                              && (l in now && (l != Owner || spec.owner == "") ==>
                                  now[l] == s.objects[NsKey(ns)].labels[l]))
  {
    IsTargetExactly(ns, e, spec);
    LabelledExactly(EnvLabels(Env(e, spec), ""), e, spec, "");
    if NsKey(ns) in s.objects {
      StampedExactly(s.objects[NsKey(ns)].labels, e);
    }
    hide IsTarget, TargetNamespace, OwnedBy;
  }
}
