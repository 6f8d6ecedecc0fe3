// What a reconcile pass is for, key by key: the object it wants at each name,
// given what is there. Nothing here says how or in which order it gets there.
module Goals {
  import opened Text
  import opened Types
  import opened Server
  import Registry

  // ----- names the spec refers to -----

  function ToSet(names: seq<string>): set<string> {
    set n | n in names
  }

  // controller.go:1160-1171
  function PullNames(spec: EnvSpec): set<string> {
    ToSet(spec.pullSecrets) + set svc, n | svc in spec.services && n in svc.pullSecrets :: n
  }

  // controller.go:1176-1187
  function ReferencedNames(spec: EnvSpec): set<string> {
    PullNames(spec) + set svc, n | svc in spec.services && n in svc.secretRefs :: n
  }

  // controller.go:1123-1128
  function PullSecretsOf(spec: EnvSpec, svc: ServiceSpec): seq<string> {
    if svc.pullSecrets != [] then svc.pullSecrets else spec.pullSecrets
  }

  predicate HasService(spec: EnvSpec, name: string) {
    exists i :: 0 <= i < |spec.services| && spec.services[i].name == name
  }

  function ServiceNamed(services: seq<ServiceSpec>, name: string): (svc: ServiceSpec)
    requires exists i :: 0 <= i < |services| && services[i].name == name
    ensures svc in services && svc.name == name
  {
    if services[0].name == name then services[0] else ServiceNamed(services[1..], name)
  }

  lemma {:induction false} ServiceNamedIs(services: seq<ServiceSpec>, i: nat)
    requires i < |services|
    requires forall a, b :: 0 <= a < b < |services| ==> services[a].name != services[b].name
    ensures ServiceNamed(services, services[i].name) == services[i]
  {
    if i > 0 {
      ServiceNamedIs(services[1..], i - 1);
    }
  }

  predicate DockerAuth(kind: Value) {
    kind == Word("kubernetes.io/dockerconfigjson") || kind == Word("kubernetes.io/dockercfg")
  }

  // ----- keys -----

  function ConfigKey(env: Env): Key {
    Key(ConfigMap, TargetNamespace(env), ConfigMapName(env.key))
  }

  function CopyKey(env: Env, name: string): Key {
    Key(Secret, TargetNamespace(env), name)
  }

  function SourceKey(env: Env, name: string): Key {
    Key(Secret, env.key.ns, name)
  }

  function ClaimKey(env: Env): Key {
    Key(Claim, TargetNamespace(env), ClaimName(env.key))
  }

  function DeployKey(env: Env, name: string): Key {
    Key(Deployment, TargetNamespace(env), name)
  }

  function ServiceKey(env: Env, name: string): Key {
    Key(Kind.Service, TargetNamespace(env), name)
  }

  // ----- content the controller sets -----

  // The fields each mutate function overwrites; it leaves the others alone.
  predicate Managed(kind: Kind, f: Field) {
    match kind
    case ConfigMap => f == Data
    case Secret => f == Type || f == Data
    case Deployment =>
      f == Replicas || f == TemplateLabels || f.Container? || f == Volumes || f == PullSecrets || f == FsGroup
    case Service => f == ServiceSelector || f == ServiceType || f == Ports
    case _ => false
  }

  function ConfigBody(env: Env): Body {
    map[Data := Table(env.spec.config)]
  }

  function SecretBody(kind: Value, data: Value): Body {
    map[Type := kind, Data := data]
  }

  // controller.go:420-433
  function ClaimBody(storage: StorageSpec): Body {
    map[AccessModes := Names(if storage.accessModes == [] then ["ReadWriteOnce"] else storage.accessModes),
        Size := Word(storage.size)]
    + (if storage.className.Some? then map[StorageClass := Word(storage.className.value)] else map[])
  }

  predicate Mounting(env: Env, svc: ServiceSpec) {
    svc.mountPath != "" && env.spec.storage.Some?
  }

  // controller.go:590-603
  function ReadinessProbe(svc: ServiceSpec): Option<Probe> {
    if svc.probe.Some? && svc.probe.value.handler.None? then
      Some(svc.probe.value.(handler := Some(Tcp(svc.port))))
    else svc.probe
  }

  function EnvSources(env: Env, svc: ServiceSpec): seq<Source> {
    (if env.spec.config == map[] then [] else [FromConfigMap(ConfigMapName(env.key))])
    + seq(|svc.secretRefs|, i requires 0 <= i < |svc.secretRefs| => FromSecret(svc.secretRefs[i]))
  }

  function SetIf(present: bool, f: Field, v: Value): Body {
    if present then map[f := v] else map[]
  }

  // controller.go:505-540
  function ContainerBody(env: Env, svc: ServiceSpec): Body {
    FixedFields(env, svc) + OptionalFields(env, svc)
  }

  function FixedFields(env: Env, svc: ServiceSpec): Body {
    map[Container(Name) := Word(svc.name),
        Container(Image) := Word(Registry.ImageRef(env.spec.registry, svc.registry, svc.image)),
        Container(Port) := Number(svc.port),
        Container(Resources) := Word(svc.resources)]
  }

  function OptionalFields(env: Env, svc: ServiceSpec): Body {
    SetIf(svc.variables != map[], Container(Variables), Table(svc.variables))
    + SetIf(EnvSources(env, svc) != [], Container(EnvFrom), Sources(EnvSources(env, svc)))
    + SetIf(Mounting(env, svc), Container(Mounts), Word(svc.mountPath))
    + (match ReadinessProbe(svc) case Some(p) => map[Container(Readiness) := Probing(p)] case None => map[])
  }

  // controller.go:622-652 and 1134-1144
  function PodBody(env: Env, svc: ServiceSpec): Body {
    SetIf(Mounting(env, svc), Volumes, Word(ClaimName(env.key)))
    + SetIf(PullSecretsOf(env.spec, svc) != [], PullSecrets, Names(PullSecretsOf(env.spec, svc)))
    + (if Mounting(env, svc) && env.spec.storage.value.fsGroup.Some?
       then map[FsGroup := Number(env.spec.storage.value.fsGroup.value)] else map[])
  }

  // controller.go:454-467
  function DeploymentBody(env: Env, svc: ServiceSpec): Body {
    map[TemplateLabels := LabelSet(EnvLabels(env, svc.name))]
    + (match svc.replicas case Some(n) => map[Replicas := Number(n)] case None => map[])
    + ContainerBody(env, svc)
    + PodBody(env, svc)
  }

  function SelectorLabels(env: Env, name: string): Labels {
    map[Label.Environment := env.key.name, Label.Service := name]
  }

  // Set on creation only: the selector is immutable.
  function SelectorBody(env: Env, svc: ServiceSpec): Body {
    map[Selector := LabelSet(SelectorLabels(env, svc.name))]
  }

  // controller.go:474-484
  function ServiceBody(env: Env, svc: ServiceSpec): Body {
    map[ServiceSelector := LabelSet(SelectorLabels(env, svc.name)),
        ServiceType := Word("ClusterIP"),
        Ports := Number(svc.port)]
  }

  // Overwriting the managed fields, some of them with nothing.
  function Apply(kind: Kind, was: Body, desired: Body): Body {
    (map f | f in was && !Managed(kind, f) :: was[f]) + desired
  }

  ghost predicate OnlyManaged(kind: Kind, body: Body) {
    forall f :: f in body ==> Managed(kind, f)
  }

  lemma ContainerFields(env: Env, svc: ServiceSpec)
    ensures forall f :: f in FixedFields(env, svc) <==>
              f == Container(Name) || f == Container(Image) || f == Container(Port) || f == Container(Resources)
    ensures forall f :: f in OptionalFields(env, svc) ==>
              f == Container(Variables) || f == Container(EnvFrom) || f == Container(Mounts) ||
                f == Container(Readiness)
  {
    hide Registry.ImageRef, EnvSources, ReadinessProbe, Mounting;
  }

  lemma ContainerIsManaged(env: Env, svc: ServiceSpec)
    ensures OnlyManaged(Deployment, ContainerBody(env, svc))
  {
    ContainerFields(env, svc);
    hide FixedFields, OptionalFields;
  }

  lemma DesiredIsManaged(env: Env, svc: ServiceSpec)
    ensures OnlyManaged(Deployment, DeploymentBody(env, svc))
    ensures OnlyManaged(Kind.Service, ServiceBody(env, svc))
  {
    ContainerIsManaged(env, svc);
    hide ContainerBody;
    assert OnlyManaged(Deployment, PodBody(env, svc));
  }

  // ----- the goal -----

  // An object without its uid and version.
  function Face(o: Obj): Obj {
    o.(uid := 0, version := 0)
  }

  function FaceOf(o: Option<Obj>): Option<Obj> {
    match o case None => None case Some(o) => Some(Face(o))
  }

  function FaceAt(s: Store, k: Key): Option<Obj> {
    FaceOf(ObjAt(s, k))
  }

  // The object a create or update leaves behind.
  function Written(fill: (Kind, Body) -> Body, kind: Kind, was: Option<Obj>, labels: Labels, desired: Body,
                   onCreate: Body): Obj {
    match was
    case None => Obj(0, 0, labels, {}, false, fill(kind, Apply(kind, map[], desired) + onCreate), 0)
    case Some(o) => Face(o).(labels := labels, body := fill(kind, Apply(kind, o.body, desired)))
  }

  function Removed(was: Option<Obj>): Option<Obj> {
    match was
    case None => None
    case Some(o) => if o.finalizers == {} then None else Some(o.(terminating := true))
  }

  // The source Secret exists and, if it is to pull images, is of a type the
  // kubelet honours.
  predicate SourceAccepted(s: Store, env: Env, name: string) {
    && SourceKey(env, name) in s.objects
    && (name in PullNames(env.spec) ==> DockerAuth(TypeOf(s.objects[SourceKey(env, name)].body)))
  }

  function SourceBody(s: Store, env: Env, name: string): Body
    requires SourceKey(env, name) in s.objects
  {
    var src := s.objects[SourceKey(env, name)].body;
    SecretBody(TypeOf(src), DataOf(src))
  }

  // What becomes of the copy of an accepted source.
  function CopyGoal(fill: (Kind, Body) -> Body, env: Env, source: Body, now: Option<Obj>): Option<Obj> {
    var anew := Written(fill, Secret, None, EnvLabels(env, ""), source, map[]);
    match now
    case None => Some(anew)
    case Some(o) =>
      if !OwnedBy(o.labels, env.key) then now
      else if TypeOf(o.body) == TypeOf(source) then Some(Written(fill, Secret, now, EnvLabels(env, ""), source, map[]))
      else if o.finalizers == {} then Some(anew)
      else Some(o.(terminating := true))
  }

  function SecretGoal(s: Store, env: Env, name: string): Option<Obj> {
    var now := FaceAt(s, CopyKey(env, name));
    if name !in ReferencedNames(env.spec) || !SourceAccepted(s, env, name) then now
    else CopyGoal(s.fill, env, SourceBody(s, env, name), now)
  }

  // A copy of the wrong type that can be deleted and created anew.
  predicate Replaceable(env: Env, source: Body, now: Option<Obj>) {
    && now.Some?
    && OwnedBy(now.value.labels, env.key)
    && TypeOf(now.value.body) != TypeOf(source)
    && now.value.finalizers == {}
  }

  predicate Replacing(s: Store, env: Env, k: Key) {
    && k.kind == Secret && k.ns == TargetNamespace(env)
    && k.name in ReferencedNames(env.spec) && SourceAccepted(s, env, k.name)
    && Replaceable(env, SourceBody(s, env, k.name), FaceAt(s, k))
  }

  // controller.go:662-665 and 673: what a listing by our labels returns, less
  // the services still wanted.
  predicate Prunable(env: Env, labels: Labels) {
    && Listed(env, labels)
    && Lookup(labels, Label.Service) != ""
    && !HasService(env.spec, Lookup(labels, Label.Service))
  }

  predicate Listed(env: Env, labels: Labels) {
    && Label.Environment in labels && labels[Label.Environment] == env.key.name
    && ManagedBy in labels && labels[ManagedBy] == MANAGER
  }

  function WorkloadObj(fill: (Kind, Body) -> Body, env: Env, svc: ServiceSpec, kind: Kind, now: Option<Obj>): Obj {
    var labels := EnvLabels(env, svc.name);
    if kind == Deployment then Written(fill, kind, now, labels, DeploymentBody(env, svc), SelectorBody(env, svc))
    else Written(fill, kind, now, labels, ServiceBody(env, svc), map[])
  }

  function WorkloadGoal(s: Store, env: Env, k: Key): Option<Obj> {
    var now := FaceAt(s, k);
    if HasService(env.spec, k.name) then
      Some(WorkloadObj(s.fill, env, ServiceNamed(env.spec.services, k.name), k.kind, now))
    else if now.Some? && Prunable(env, now.value.labels) then Removed(now)
    else now
  }

  function NamespaceGoal(s: Store, env: Env): Option<Obj> {
    match FaceAt(s, NsKey(TargetNamespace(env)))
    case None => Some(Obj(0, 0, EnvLabels(env, ""), {}, false, s.fill(Namespace, map[]), 0))
    case Some(o) =>
      Some(if OwnedBy(o.labels, env.key) then o.(labels := o.labels + EnvLabels(env, "")) else o)
  }

  function Goal(s: Store, env: Env, k: Key): Option<Obj> {
    var now := FaceAt(s, k);
    if k == NsKey(TargetNamespace(env)) then NamespaceGoal(s, env)
    else if k.kind == Namespace || k.ns != TargetNamespace(env) then now
    else match k.kind
      case ConfigMap =>
        if k != ConfigKey(env) then now
        else if env.spec.config == map[] then Removed(now)
        else Some(Written(s.fill, k.kind, now, EnvLabels(env, ""), ConfigBody(env), map[]))
      case Secret => SecretGoal(s, env, k.name)
      case Claim =>
        if k == ClaimKey(env) && env.spec.storage.Some? && now.None? then
          Some(Obj(0, 0, EnvLabels(env, ""), {}, false, s.fill(Claim, ClaimBody(env.spec.storage.value)), 0))
        else now
      case _ => WorkloadGoal(s, env, k)
  }

  // ----- on the way there -----

  // One key: untouched, or brought to its goal, or holding a Secret of the
  // wrong type that has been deleted and not yet created again.
  predicate Step(was: Option<Obj>, now: Option<Obj>, goal: Option<Obj>, replacing: bool) {
    || now == was
    || (FaceOf(now) == goal && FaceOf(was) != goal)
    || (now == None && replacing)
  }

  ghost predicate StepAt(s: Store, t: Store, env: Env, k: Key) {
    Step(ObjAt(s, k), ObjAt(t, k), Goal(s, env, k), Replacing(s, env, k))
  }

  // What is new is in a namespace that admits it.
  predicate AdmittedAt(s: Store, t: Store, k: Key) {
    k in t.objects && k !in s.objects && k.kind != Namespace ==> NsActive(t, k.ns)
  }

  ghost predicate Between(s: Store, t: Store, env: Env) {
    t.fill == s.fill && forall k :: StepAt(s, t, env, k) && AdmittedAt(s, t, k)
  }

  ghost predicate AtGoal(s: Store, t: Store, env: Env, k: Key) {
    FaceAt(t, k) == Goal(s, env, k)
  }

  ghost predicate Reached(s: Store, t: Store, env: Env) {
    forall k :: AtGoal(s, t, env, k)
  }
}
