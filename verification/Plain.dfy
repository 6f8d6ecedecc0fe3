// Names and labels spelled out, for what the theorems say of stored objects.
module Plain {
  import opened Text
  import opened Types
  import opened Server
  import opened Goals

  // The namespace the spec names, or else one of the environment's own name.
  predicate IsTarget(ns: string, e: EnvKey, spec: EnvSpec) {
    (spec.namespaceName != "" && ns == spec.namespaceName) || (spec.namespaceName == "" && ns == e.name)
  }

  lemma IsTargetExactly(ns: string, e: EnvKey, spec: EnvSpec)
    ensures IsTarget(ns, e, spec) <==> ns == TargetNamespace(Env(e, spec))
  {
  }

  predicate Bears(labels: Labels, l: Label, text: string) {
    l in labels && labels[l] == text
  }

  // The labels that make an object an environment's own.
  predicate Stamped(labels: Labels, e: EnvKey) {
    && Bears(labels, ManagedBy, "kado-operator")
    && Bears(labels, Label.Environment, e.name)
    && Bears(labels, OwnerNamespace, e.ns)
  }

  lemma StampedExactly(labels: Labels, e: EnvKey)
    requires e.name != "" && e.ns != ""
    ensures OwnedBy(labels, e) <==> Stamped(labels, e)
  {
  }

  // The labels of what is made for a service, or for the environment when
  // there is none: these and no others.
  predicate LabelledFor(labels: Labels, e: EnvKey, spec: EnvSpec, service: string) {
    && Stamped(labels, e)
    && (if spec.owner != "" then Bears(labels, Owner, spec.owner) else Owner !in labels)
    && (if service != "" then Bears(labels, Label.Service, service) else Label.Service !in labels)
    && forall l :: l in labels ==> l in {ManagedBy, Label.Environment, OwnerNamespace, Owner, Label.Service}
  }

  lemma LabelledExactly(labels: Labels, e: EnvKey, spec: EnvSpec, service: string)
    ensures LabelledFor(labels, e, spec, service) <==> labels == EnvLabels(Env(e, spec), service)
  {
    var wanted := EnvLabels(Env(e, spec), service);
    if LabelledFor(labels, e, spec, service) {
      forall l ensures l in labels <==> l in wanted {
      }
      assert labels == wanted;
    }
  }

  predicate Uses(spec: EnvSpec, name: string) {
    exists svc :: svc in spec.services && svc.name == name
  }

  lemma UsesExactly(spec: EnvSpec, name: string)
    ensures Uses(spec, name) <==> HasService(spec, name)
  {
    if svc :| svc in spec.services && svc.name == name {
      var i :| 0 <= i < |spec.services| && spec.services[i] == svc;
    }
    if i :| 0 <= i < |spec.services| && spec.services[i].name == name {
      assert spec.services[i] in spec.services;
    }
  }

  // A name images are pulled with, by the environment or one of its services.
  predicate PullsWith(spec: EnvSpec, name: string) {
    name in spec.pullSecrets || exists svc :: svc in spec.services && name in svc.pullSecrets
  }

  // A Secret the spec mentions at all.
  predicate Mentions(spec: EnvSpec, name: string) {
    PullsWith(spec, name) || exists svc :: svc in spec.services && name in svc.secretRefs
  }

  lemma MentionsExactly(spec: EnvSpec, name: string)
    ensures PullsWith(spec, name) <==> name in PullNames(spec)
    ensures Mentions(spec, name) <==> name in ReferencedNames(spec)
  {
  }

  // A type of Secret the kubelet pulls images with.
  predicate DockerType(v: Value) {
    v.Word? && v.text in ["kubernetes.io/dockerconfigjson", "kubernetes.io/dockercfg"]
  }

  lemma DockerTypeExactly(v: Value)
    ensures DockerType(v) <==> DockerAuth(v)
  {
  }
}
