// The DevEnvironment record and the labels its objects carry:
// api/v1alpha1/devenvironment_types.go and the label helpers of
// internal/controller.
module Types {
  import opened Text

  // ----- labels -----

  // The label keys the controller uses, and everybody else's.
  datatype Label = ManagedBy | Environment | OwnerNamespace | Service | Owner | OtherLabel(name: string)

  type Labels = map<Label, string>

  const MANAGER: string := "kado-operator"

  // A DevEnvironment's own namespace and name.
  datatype EnvKey = EnvKey(ns: string, name: string)

  // Reading an absent key of a Go map gives the empty string.
  function Lookup(labels: Labels, l: Label): string {
    if l in labels then labels[l] else ""
  }

  // ----- spec -----

  datatype Handler = Tcp(port: nat) | Given(action: string)

  datatype Probe = Probe(handler: Option<Handler>, timing: string)

  datatype ServiceSpec = ServiceSpec(
    name: string,
    image: string,
    registry: string,
    port: nat,
    replicas: Option<nat>,
    variables: map<string, string>,
    secretRefs: seq<string>,
    pullSecrets: seq<string>,
    mountPath: string,
    resources: string,
    probe: Option<Probe>)

  datatype StorageSpec = StorageSpec(
    size: string,
    className: Option<string>,
    accessModes: seq<string>,
    fsGroup: Option<nat>)

  datatype EnvSpec = EnvSpec(
    namespaceName: string,
    owner: string,
    storage: Option<StorageSpec>,
    registry: string,
    pullSecrets: seq<string>,
    services: seq<ServiceSpec>,
    config: map<string, string>)

  // What a reconcile pass works from.
  datatype Env = Env(key: EnvKey, spec: EnvSpec)

  // The schema makes services a list keyed by name.
  predicate UniqueNames(spec: EnvSpec) {
    forall i, j :: 0 <= i < j < |spec.services| ==> spec.services[i].name != spec.services[j].name
  }

  function TargetNamespace(env: Env): string {
    if env.spec.namespaceName != "" then env.spec.namespaceName else env.key.name
  }

  // controller.go:1093-1106
  function EnvLabels(env: Env, service: string): Labels {
    map[ManagedBy := MANAGER, Environment := env.key.name, OwnerNamespace := env.key.ns]
    + (if env.spec.owner != "" then map[Owner := env.spec.owner] else map[])
    + (if service != "" then map[Service := service] else map[])
  }

  // controller.go:1110-1115
  predicate OwnedBy(labels: Labels, key: EnvKey) {
    && Lookup(labels, ManagedBy) == MANAGER
    && Lookup(labels, Environment) == key.name
    && Lookup(labels, OwnerNamespace) == key.ns
  }

  // mapping.go:40-50
  function MapToEnvironment(labels: Labels): seq<EnvKey> {
    if Lookup(labels, ManagedBy) != MANAGER then []
    else
      var name, ns := Lookup(labels, Environment), Lookup(labels, OwnerNamespace);
      if name == "" || ns == "" then [] else [EnvKey(ns, name)]
  }

  // The mapping inverts the labels: an object wakes exactly the environment
  // that owns it, and one that no environment owns wakes none.
  lemma MappingInvertsLabels(labels: Labels, key: EnvKey)
    requires key.ns != "" && key.name != ""
    ensures OwnedBy(labels, key) <==> MapToEnvironment(labels) == [key]
    ensures MapToEnvironment(labels) == [] <==> forall k: EnvKey :: k.ns != "" && k.name != "" ==> !OwnedBy(labels, k)
  {
    var owner := EnvKey(Lookup(labels, OwnerNamespace), Lookup(labels, Environment));
    assert OwnedBy(labels, owner) <==> Lookup(labels, ManagedBy) == MANAGER;
  }

  lemma StampedIsOwned(env: Env, service: string, extra: Labels)
    ensures OwnedBy(extra + EnvLabels(env, service), env.key)
    ensures OwnedBy(EnvLabels(env, service), env.key)
  {
  }

  lemma OneOwner(labels: Labels, a: EnvKey, b: EnvKey)
    requires OwnedBy(labels, a) && OwnedBy(labels, b)
    ensures a == b
  {
  }

  function ConfigMapName(key: EnvKey): string {
    key.name + "-config"
  }

  function ClaimName(key: EnvKey): string {
    key.name + "-workspace"
  }

  // ----- status -----

  datatype Phase = NoPhase | Pending | Provisioning | Ready | Failed

  datatype Truth = True | False | Unknown

  datatype ConditionType = Available | Progressing | Degraded | OtherType(name: string)

  // Why a container is waiting.
  datatype WaitReason =
    | CrashLoopBackOff | ImagePullBackOff | ErrImagePull | ErrImageNeverPull | ImageInspectError
    | InvalidImageName | CreateContainerConfigError | CreateContainerError | RunContainerError
    | OtherWait(text: string)

  // What is wrong with a container, a pod or a rollout. Wording is not kept.
  datatype Detail =
    | Unschedulable(message: string)
    | CrashLooping(container: string, isInit: bool, exitCode: int)
    | Blocked(wait: WaitReason, message: string)
    | Restarting(container: string, isInit: bool, exitCode: int, restarts: nat)
    | Stalled(cause: StallCause)

  datatype StallCause = CannotCreatePods(reason: string, message: string) | PodsUnknown | ProbeNotPassing

  datatype Problem = Problem(service: string, detail: Detail)

  // Which call a pass failed at, and how.
  datatype ApiError = NotFound | AlreadyExists | Conflict | Invalid | Forbidden | Unavailable

  datatype Cause =
    | CallFailed(error: ApiError)
    | NamespaceNotManaged
    | SecretNotManaged(name: string)
    | PullSecretType(name: string)

  datatype Message =
    | ReadyCount(ready: nat, total: nat)
    | Problems(problems: seq<Problem>)
    | Succeeded
    | Failure(cause: Cause)
    | OtherMessage(text: string)

  datatype Reason =
    | EnvironmentReady | ServicesNotReady | WorkloadUnhealthy | ProvisioningReason | Provisioned
    | ReconcileSucceeded | ProvisioningFailed | ReconcileFailed | OtherReason(name: string)

  datatype Condition = Condition(kind: ConditionType, status: Truth, reason: Reason, message: Message, generation: nat,
                                 since: nat)

  datatype Status = Status(
    phase: Phase,
    namespace: string,
    ready: nat,
    total: nat,
    generation: nat,
    conditions: seq<Condition>)

  // ----- record -----

  datatype Finalizer = Ours | Theirs(name: string)

  datatype Record = Record(
    uid: nat,
    version: nat,
    generation: nat,
    deleting: bool,
    finalizers: set<Finalizer>,
    spec: EnvSpec,
    status: Status)
}
