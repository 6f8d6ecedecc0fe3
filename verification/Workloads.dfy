// controller.go:442-488, 505-540 and 590-652: what the stored workloads of a
// converged environment are to each other.
module Workloads {
  import opened Text
  import opened Types
  import opened Server
  import opened Goals
  import opened Convergence
  import opened References
  import opened Plain

  // ----- selection -----

  predicate Selects(selector: Labels, labels: Labels) {
    forall l :: l in selector ==> l in labels && labels[l] == selector[l]
  }

  lemma SelectorFits(env: Env, a: string, b: string)
    requires a != "" && b != ""
    ensures Selects(SelectorLabels(env, a), EnvLabels(env, b)) <==> a == b
  {
    var selector := SelectorLabels(env, a);
    assert Label.Service in selector && selector[Label.Service] == a;
  }

  // What the stored Service selects by, and what the stored pods bear.
  lemma StoredSelector(t: Store, env: Env, svc: ServiceSpec)
    requires Fills(t.fill) && ServiceRight(t, env, svc)
    ensures ServiceKey(env, svc.name) in t.objects
    ensures var body := t.objects[ServiceKey(env, svc.name)].body;
            ServiceSelector in body && body[ServiceSelector] == LabelSet(SelectorLabels(env, svc.name))
  {
    hide DeploymentBody, EnvLabels, SelectorLabels, Exact, Fills;
    ExactWithin(t.fill, Kind.Service, t.objects[ServiceKey(env, svc.name)].body, ServiceBody(env, svc));
    assert ServiceSelector in ServiceBody(env, svc);
  }

  lemma StoredTemplate(t: Store, env: Env, svc: ServiceSpec)
    requires Fills(t.fill) && ServiceRight(t, env, svc)
    ensures DeployKey(env, svc.name) in t.objects
    ensures var body := t.objects[DeployKey(env, svc.name)].body;
            TemplateLabels in body && body[TemplateLabels] == LabelSet(EnvLabels(env, svc.name))
  {
    TemplateIs(env, svc);
    hide DeploymentBody, ServiceBody, EnvLabels, Exact, Fills;
    ExactWithin(t.fill, Deployment, t.objects[DeployKey(env, svc.name)].body, DeploymentBody(env, svc));
  }

  // A Service sends its traffic to the pods of its own Deployment, and to no
  // others of its environment.
  lemma ServiceReachesItsPods(t: Store, env: Env, a: ServiceSpec, b: ServiceSpec)
    requires Fills(t.fill) && ServiceRight(t, env, a) && ServiceRight(t, env, b)
    requires a.name != "" && b.name != ""
    ensures ServiceKey(env, a.name) in t.objects && DeployKey(env, b.name) in t.objects
    ensures var service, deploy := t.objects[ServiceKey(env, a.name)].body, t.objects[DeployKey(env, b.name)].body;
            && ServiceSelector in service && service[ServiceSelector].LabelSet?
            && TemplateLabels in deploy && deploy[TemplateLabels].LabelSet?
            && (Selects(service[ServiceSelector].labels, deploy[TemplateLabels].labels) <==> a.name == b.name)
  {
    StoredSelector(t, env, a);
    StoredTemplate(t, env, b);
    hide ServiceRight, EnvLabels, SelectorLabels, Selects, Fills;
    SelectorFits(env, a.name, b.name);
  }

  lemma TemplateIs(env: Env, svc: ServiceSpec)
    ensures TemplateLabels in DeploymentBody(env, svc)
    ensures DeploymentBody(env, svc)[TemplateLabels] == LabelSet(EnvLabels(env, svc.name))
  {
    ContainerRefs(env, svc);
    PodRefs(env, svc);
    hide ContainerBody, PodBody, EnvLabels;
  }

  // ----- the shared volume -----

  ghost predicate NoOwnVolumes(fill: (Kind, Body) -> Body) {
    && NotDefaulted(fill, Deployment, Container(Mounts))
    && NotDefaulted(fill, Deployment, Volumes)
    && NotDefaulted(fill, Deployment, FsGroup)
  }

  lemma VolumeFields(env: Env, svc: ServiceSpec)
    ensures var body := DeploymentBody(env, svc);
            && (Container(Mounts) in body <==> svc.mountPath != "" && env.spec.storage.Some?)
            && (Volumes in body <==> svc.mountPath != "" && env.spec.storage.Some?)
            && (FsGroup in body <==>
                svc.mountPath != "" && env.spec.storage.Some? && env.spec.storage.value.fsGroup.Some?)
            && (FsGroup in body ==> body[FsGroup] == Number(env.spec.storage.value.fsGroup.value))
  {
    ContainerMounts(env, svc);
    PodFields(env, svc);
    hide ContainerBody, PodBody, EnvLabels, ReadinessProbe, Registry.ImageRef;
  }

  lemma ContainerMounts(env: Env, svc: ServiceSpec)
    ensures var body := ContainerBody(env, svc);
            && (forall f :: f in body ==> f.Container?)
            && (Container(Mounts) in body <==> svc.mountPath != "" && env.spec.storage.Some?)
  {
    ContainerFields(env, svc);
    OptionalMounts(env, svc);
    hide FixedFields, OptionalFields;
  }

  lemma OptionalMounts(env: Env, svc: ServiceSpec)
    ensures Container(Mounts) in OptionalFields(env, svc) <==> svc.mountPath != "" && env.spec.storage.Some?
  {
    hide EnvSources, ReadinessProbe;
  }

  lemma ContainerFixed(env: Env, svc: ServiceSpec)
    ensures var body := ContainerBody(env, svc);
            && (forall f :: f in body ==> f.Container?)
            && Container(Image) in body
            && body[Container(Image)] == Word(Registry.ImageRef(env.spec.registry, svc.registry, svc.image))
            && Container(Port) in body && body[Container(Port)] == Number(svc.port)
  {
    ContainerFields(env, svc);
    hide Registry.ImageRef, OptionalFields;
  }

  lemma ContainerProbe(env: Env, svc: ServiceSpec)
    ensures var body := ContainerBody(env, svc);
            && (Container(Readiness) in body <==> ReadinessProbe(svc).Some?)
            && (Container(Readiness) in body ==> body[Container(Readiness)] == Probing(ReadinessProbe(svc).value))
  {
    ContainerFields(env, svc);
    OptionalProbe(env, svc);
    hide FixedFields, OptionalFields, ReadinessProbe;
  }

  lemma OptionalProbe(env: Env, svc: ServiceSpec)
    ensures var body := OptionalFields(env, svc);
            && (Container(Readiness) in body <==> ReadinessProbe(svc).Some?)
            && (Container(Readiness) in body ==> body[Container(Readiness)] == Probing(ReadinessProbe(svc).value))
  {
    hide EnvSources, Mounting, ReadinessProbe;
  }

  lemma ProbeHasHandler(svc: ServiceSpec)
    ensures ReadinessProbe(svc).Some? <==> svc.probe.Some?
    ensures ReadinessProbe(svc).Some? ==> ReadinessProbe(svc).value.handler.Some?
  {
  }

  lemma PodFields(env: Env, svc: ServiceSpec)
    ensures var body := PodBody(env, svc);
            && (forall f :: f in body ==> f == PullSecrets || f == Volumes || f == FsGroup)
            && (Volumes in body <==> svc.mountPath != "" && env.spec.storage.Some?)
            && (FsGroup in body <==>
                svc.mountPath != "" && env.spec.storage.Some? && env.spec.storage.value.fsGroup.Some?)
            && (FsGroup in body ==> body[FsGroup] == Number(env.spec.storage.value.fsGroup.value))
  {
    hide PullSecretsOf, ClaimName;
  }

  // A stored Deployment mounts the shared volume, declares it and bears the
  // group each exactly when its service asks for it and the environment has
  // it - whatever the Deployment looked like before.
  lemma SharedVolumeExactly(t: Store, env: Env, svc: ServiceSpec)
    requires Fills(t.fill) && NoOwnVolumes(t.fill) && ServiceRight(t, env, svc)
    ensures DeployKey(env, svc.name) in t.objects
    ensures var body := t.objects[DeployKey(env, svc.name)].body;
            && (Container(Mounts) in body <==> svc.mountPath != "" && env.spec.storage.Some?)
            && (Volumes in body <==> Container(Mounts) in body)
            && (FsGroup in body <==> Container(Mounts) in body && env.spec.storage.value.fsGroup.Some?)
            && (FsGroup in body ==> body[FsGroup] == Number(env.spec.storage.value.fsGroup.value))
  {
    var body := t.objects[DeployKey(env, svc.name)].body;
    VolumeFields(env, svc);
    hide DeploymentBody, EnvLabels, Exact, Fills;
    FieldExact(t.fill, Deployment, body, DeploymentBody(env, svc), Container(Mounts));
    FieldExact(t.fill, Deployment, body, DeploymentBody(env, svc), Volumes);
    FieldExact(t.fill, Deployment, body, DeploymentBody(env, svc), FsGroup);
  }

  // ----- image and probe -----

  lemma ContainerIs(env: Env, svc: ServiceSpec)
    ensures var body := DeploymentBody(env, svc);
            && (Container(Image) in body &&
                body[Container(Image)] == Word(Registry.ImageRef(env.spec.registry, svc.registry, svc.image)))
            && (Container(Readiness) in body <==> svc.probe.Some?)
            && (Container(Readiness) in body ==>
                  body[Container(Readiness)].Probing? && body[Container(Readiness)].probe.handler.Some?)
  {
    ContainerFixed(env, svc);
    ContainerProbe(env, svc);
    ProbeHasHandler(svc);
    PodFields(env, svc);
    hide ContainerBody, PodBody, EnvLabels, ReadinessProbe, Registry.ImageRef;
  }

  // A stored Deployment probes exactly when its service asks for a probe, and
  // what it probes with always does something.
  lemma ProbesAct(t: Store, env: Env, svc: ServiceSpec)
    requires Fills(t.fill) && NotDefaulted(t.fill, Deployment, Container(Readiness))
    requires ServiceRight(t, env, svc)
    ensures DeployKey(env, svc.name) in t.objects
    ensures var body := t.objects[DeployKey(env, svc.name)].body;
            && (Container(Readiness) in body <==> svc.probe.Some?)
            && (Container(Readiness) in body ==>
                  body[Container(Readiness)].Probing? && body[Container(Readiness)].probe.handler.Some?)
  {
    ContainerIs(env, svc);
    hide DeploymentBody, EnvLabels, Exact, Fills;
    FieldExact(t.fill, Deployment, t.objects[DeployKey(env, svc.name)].body, DeploymentBody(env, svc),
               Container(Readiness));
  }

  // ----- ports -----

  lemma PortFields(env: Env, svc: ServiceSpec)
    ensures var body := DeploymentBody(env, svc);
            && Container(Port) in body && body[Container(Port)] == Number(svc.port)
            && (svc.probe.Some? && svc.probe.value.handler.None? && Container(Readiness) in body ==>
                  body[Container(Readiness)].Probing? &&
                    body[Container(Readiness)].probe.handler == Some(Tcp(svc.port)))
  {
    ContainerFixed(env, svc);
    ContainerProbe(env, svc);
    DefaultProbe(svc);
    PodFields(env, svc);
    hide ContainerBody, PodBody, EnvLabels, ReadinessProbe, Registry.ImageRef;
  }

  lemma DefaultProbe(svc: ServiceSpec)
    ensures svc.probe.Some? && svc.probe.value.handler.None? ==>
              ReadinessProbe(svc).Some? && ReadinessProbe(svc).value.handler == Some(Tcp(svc.port))
  {
  }

  // The port a stored Service sends traffic to is the port the pods of its
  // Deployment listen on, and the one a probe without a handler tries.
  lemma PortsAgree(t: Store, env: Env, svc: ServiceSpec)
    requires Fills(t.fill) && NotDefaulted(t.fill, Deployment, Container(Readiness)) && ServiceRight(t, env, svc)
    ensures ServiceKey(env, svc.name) in t.objects && DeployKey(env, svc.name) in t.objects
    ensures var service, deploy := t.objects[ServiceKey(env, svc.name)].body, t.objects[DeployKey(env, svc.name)].body;
            && Ports in service && Container(Port) in deploy
            && service[Ports] == deploy[Container(Port)] == Number(svc.port)
            && (svc.probe.Some? && svc.probe.value.handler.None? ==>
                  && Container(Readiness) in deploy && deploy[Container(Readiness)].Probing?
                  && deploy[Container(Readiness)].probe.handler == Some(Tcp(svc.port)))
  {
    PortFields(env, svc);
    ProbesAct(t, env, svc);
    StoredPorts(t, env, svc);
    var body := t.objects[DeployKey(env, svc.name)].body;
    hide DeploymentBody, EnvLabels, Exact, Fills;
    FieldExact(t.fill, Deployment, body, DeploymentBody(env, svc), Container(Readiness));
    ExactWithin(t.fill, Deployment, body, DeploymentBody(env, svc));
  }

  lemma StoredPorts(t: Store, env: Env, svc: ServiceSpec)
    requires Fills(t.fill) && ServiceRight(t, env, svc)
    ensures ServiceKey(env, svc.name) in t.objects
    ensures var service := t.objects[ServiceKey(env, svc.name)].body;
            Ports in service && service[Ports] == Number(svc.port)
  {
    hide DeploymentBody, EnvLabels, SelectorLabels, Exact, Fills;
    ExactWithin(t.fill, Kind.Service, t.objects[ServiceKey(env, svc.name)].body, ServiceBody(env, svc));
    assert Ports in ServiceBody(env, svc);
  }

  // ----- the claim -----

  // An existing claim stays as it was, owned or not; a new one asks for what
  // the spec says: the size, the storage class if any, and the access modes,
  // which are ReadWriteOnce when none are given.
  lemma ClaimOnce(s: Store, t: Store, e: EnvKey, spec: EnvSpec, ns: string)
    requires Fills(s.fill) && Between(s, t, Env(e, spec)) && spec.storage.Some? && IsTarget(ns, e, spec)
    requires AtGoal(s, t, Env(e, spec), Key(Claim, ns, e.name + "-workspace"))
    ensures var k := Key(Claim, ns, e.name + "-workspace");
            && k in t.objects
            && (k in s.objects ==> t.objects[k] == s.objects[k])
            && (k !in s.objects ==>
                  LabelledFor(t.objects[k].labels, e, spec, "") &&
                    ClaimAs(t.fill, t.objects[k].body, spec.storage.value))
  {
    var k := Key(Claim, ns, e.name + "-workspace");
    hide EnvLabels, IsTarget, LabelledFor, ClaimAs, TargetNamespace;
    IsTargetExactly(ns, e, spec);
    LabelledExactly(EnvLabels(Env(e, spec), ""), e, spec, "");
    assert StepAt(s, t, Env(e, spec), k);
    NewClaim(s.fill, spec.storage.value);
    hide Fills, ClaimBody, AdmittedAt;
  }

  ghost predicate ClaimAs(fill: (Kind, Body) -> Body, body: Body, storage: StorageSpec) {
    && Size in body && body[Size] == Word(storage.size)
    && AccessModes in body
    && body[AccessModes] == Names(if storage.accessModes == [] then ["ReadWriteOnce"] else storage.accessModes)
    && (storage.className.Some? ==> StorageClass in body && body[StorageClass] == Word(storage.className.value))
    && (storage.className.None? && NotDefaulted(fill, Claim, StorageClass) ==> StorageClass !in body)
  }

  lemma NewClaim(fill: (Kind, Body) -> Body, storage: StorageSpec)
    requires Fills(fill)
    ensures ClaimAs(fill, fill(Claim, ClaimBody(storage)), storage)
  {
    var asked := ClaimBody(storage);
    assert Within(asked, fill(Claim, asked));
    assert Size in asked && AccessModes in asked;
    assert StorageClass in asked <==> storage.className.Some?;
    hide Fills;
  }
}
