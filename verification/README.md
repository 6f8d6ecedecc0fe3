# Verification of kado-operator

kado-operator turns `DevEnvironment` records into namespaces full of
workloads. This project is a Dafny model of its reconciler, of the status and
diagnosis it writes, of the registry field's grammar and of the script that
numbers its releases, with proofs of what each of them is for.

Run `dafny verify dfyconfig.toml` to check everything.

## How it is put together

The API server is a value (`Server.Store`): records, objects by kind,
namespace and name, a counter for uids and versions, and an arbitrary
defaulting function of which only `Server.Fills` is known - it fills in unset
fields, and what it fills in does not depend on whether some of it is there
already. A write that changes nothing leaves the version alone; namespaces and
objects with finalizers are marked as terminating when deleted; nothing can be
created in a namespace that is missing or going away; a Secret's type and a
Deployment's selector cannot change.

The reconciler is a class whose methods send requests through an `ApiClient`.
Every request can be lost before it takes effect, or take effect and lose its
answer; a crash is the loss of everything from some request on. So one
contract covers the pass that succeeds, the pass that fails and the pass cut
off anywhere.

`Goals` says, key by key and without any order, what object a pass wants at a
name, given what is there (`Goal`). `Between(s, t, env)` says that every key of
`t` is as in `s`, or at its goal, or holds a Secret of the wrong type that has
been deleted and not yet created again, and that nothing new is in a namespace
that does not admit it. The methods are proved to stay
`Between`, to reach the goal when they report no error, and to report no error
only under a condition on the store they started from - and, with no request
lost, exactly under that condition (`Client.Exactly`). `Passes.Pass` is the
relation all of `Reconcile` stays in. Everything else about whole passes and
runs of passes is lemmas about `Between`, `Goal` and `Pass`.

What a pass leaves is then told once more in plain terms - keys and labels
spelled out, fields of stored objects, strings of tags and images - and proved
to be what the definitions above come to (`Plain`, `Pruning`, `Readiness`,
`Content`, `Success`, `Blame`, and the last parts of `Tags` and `Registry`).

`Protocol` is the same controller one request at a time, beside users,
outsiders, kubelets, the namespace controller and crashes, with a queue, timers
and watches. `Simulation` connects the two: every pass is a run of it.

| file | what is in it |
|---|---|
| `Text`, `Sorting`, `Regex` | decimals, splitting and joining; string order; regular expressions |
| `Types`, `Server`, `Client` | records, labels, status; the API server; the connection to it |
| `Goals`, `Progress` | what a pass is for; the goal does not move, and ways towards it compose |
| `Steps`, `Passes`, `Reconciler` | lemmas for the steps; the relation of a whole pass; the methods |
| `Convergence`, `Workloads`, `References`, `Secrets`, `Retry`, `Isolation`, `Interference` | theorems about passes and runs of passes |
| `Plain`, `Pruning`, `Readiness`, `Content`, `Success` | what is stored, in plain terms: dropped services, ready services and the status, content, conditions for success |
| `Diagnosis`, `Blame`, `StatusRules`, `StatusRuns` | which services cannot start, and what is said of them; the status written |
| `Protocol`, `NoOrphan`, `WakeUps`, `Teardown`, `Completion`, `Fairness`, `Atomicity` | the machine of single requests and its theorems |
| `Refinement`, `Simulation` | whole passes as runs of the machine |
| `Tags`, `Version`, `VersionHistory`, `Registry` | release numbering; the registry field and image references |

## Where the code and its documentation differ

The model follows the code.

- "Ready" means that ready replicas reach the number asked for
  (internal/controller/devenvironment_controller.go:490-500). The comments at
  api/v1alpha1/devenvironment_types.go:322 and
  internal/controller/devenvironment_controller.go:167-168 still say "at least
  one ready replica".
- docs/devenvironment.md:373-377 says a probe that never passes leaves
  `Degraded=False` indefinitely. Since the progress deadline is read
  (internal/controller/devenvironment_controller.go:829-843), it does not.

## Where a property fails, and exactly when

- Isolation between environments holds of passes taken as atomic
  (`Isolation.OthersKeepOut`) and not request by request. It holds of a request
  exactly when the worker does not trespass (`Atomicity.TurnSparesExactly`), and
  runs exist on which a delete, a create and a label patch each do
  (`DeleteHitsAnother`, `CreateEntersAnother`, `PatchHitsAnother`), all of them
  from two records with one target. While no other stored record has the target
  a worker works on, none of its requests touches what is another's
  (`SoleTargetSpares`).
- A pass that reports no error leaves exactly the wanted workloads managed if and
  only if nothing had borrowed the label of a wanted service under another name
  (`Convergence.ManagedIsWantedExactly`), which no run of the controller brings
  about (`AlwaysNamed`).
- Resolving an image twice is resolving it once if and only if the registry
  begins with a host, or the image names its own (`Registry.ResolveTwice`).
- The next version is above the last one if and only if the components fit the
  shell's integers (`Version.NextExceedsExactly`).
- The counts in the status are not by themselves a sign of readiness: a failure
  leaves them as the last success wrote them (`StatusRules.CountsOutliveReady`).

## Assumptions

- Reads are current, and at most one worker has a key.
- A record's target namespace does not change during its life. The rule at
  api/v1alpha1/devenvironment_types.go:233 compares old and new values and so
  does not cover setting an unset one.
- Service names are unique and, like record names, not empty. Others neither
  forge the ownership labels nor take off the controller's finalizer.
- What the server stores has been through its defaulting (`Client.Valid`), and
  requests keep it so.
- Only for `Fairness.TeardownTerminates`: worker, queue, timer and namespace
  controller are not passed over for ever while they have something to do, a
  provisioning pass does not stay in its namespace for ever, and crashes, lost
  requests and edits of the record come to an end.
- The server has no default selector for Deployments, and (only for references)
  makes up no `envFrom`, volumes or pull secrets.

## Model

| member | source | states |
|---|---|---|
| Reconciler.DevEnvironmentReconciler.Reconcile | internal/controller/devenvironment_controller.go:112-165 | Whatever happens to its requests, a pass stays in the relation Pass; with no error reported it leaves every object at its goal, the finalizer on, the status of a success, and asks for a requeue exactly when fewer services are ready than the spec has; it reports no error only if the condition WillSucceed held at the start, and with no request lost exactly then, and otherwise leaves the status of that failure |
| Reconciler.DevEnvironmentReconciler.EnsureFinalizer | internal/controller/devenvironment_controller.go:125-134 | On success the record bears the finalizer and nothing else has changed in the cluster |
| Reconciler.DevEnvironmentReconciler.Provision | internal/controller/devenvironment_controller.go:136-164 | From a store whose record bears the finalizer: success means goal reached, status and requeue as above; failure with nothing lost leaves the failure in the status |
| Reconciler.DevEnvironmentReconciler.ReconcileEnvironment | internal/controller/devenvironment_controller.go:169-201 | No workload is touched before everything it may refer to is in place; a foreign namespace stops the pass before any write; the count returned is the number of services whose stored Deployment has as many ready pods as the spec asks for, or one where it does not say |
| Reconciler.DevEnvironmentReconciler.ReconcileNamespace | internal/controller/devenvironment_controller.go:205-239 | The namespace is created, or its labels merged with nothing taken away, exactly when it is missing or owned; otherwise an error and no change |
| Reconciler.DevEnvironmentReconciler.ReconcileConfigMap | internal/controller/devenvironment_controller.go:242-263 | The ConfigMap reaches its goal - gone when the config is empty - exactly when the namespace admits it |
| Reconciler.DevEnvironmentReconciler.ReconcileSecrets | internal/controller/devenvironment_controller.go:268-337 | One loop brings every referenced copy to its goal, exactly when every source is usable and every copy owned and of the right type or replaceable; only Secrets change |
| Reconciler.DevEnvironmentReconciler.ReplaceOnTypeChange | internal/controller/devenvironment_controller.go:342-401 | With anything done by anybody between its read and its delete, it only ever removes the object of the uid it read as owned, which still has the wrong type; with nobody else, an owned copy of the wrong type is gone and any other copy untouched |
| Reconciler.DevEnvironmentReconciler.CopySecret | internal/controller/devenvironment_controller.go:274-335 | One copy reaches its goal exactly when its source is usable (docker-typed if it is to pull images) and the copy is owned, or missing and the namespace open |
| Reconciler.DevEnvironmentReconciler.ReconcilePVC | internal/controller/devenvironment_controller.go:405-438 | A missing claim is created, an existing one never touched |
| Reconciler.DevEnvironmentReconciler.ReconcileService | internal/controller/devenvironment_controller.go:442-501 | Deployment and Service reach their goal, with the selector of an existing Deployment kept; the stored Deployment asks for the spec's replicas, and the service is reported ready exactly when as many pods are ready as that Deployment asks for, or one if the spec does not say |
| Reconciler.DevEnvironmentReconciler.ReconcileServices | internal/controller/devenvironment_controller.go:185-195 | The loop brings every wanted workload to its goal and returns how many services have, in the final store, as many ready pods as they ask for |
| Reconciler.DevEnvironmentReconciler.PruneServices | internal/controller/devenvironment_controller.go:656-695 | From any store it deletes only Deployments and Services in the namespace that bear managed-by kado-operator, the environment's name and the non-empty label of a service the spec does not have, whatever their other labels; and on success all of those, each gone or held by a finalizer |
| Reconciler.DevEnvironmentReconciler.ReferencedSecrets | internal/controller/devenvironment_controller.go:1160-1199 | The one ascending listing, without repetition, of exactly the names the environment or a service pulls images with or a service mounts |
| Sorting.LeqExactly | internal/controller/devenvironment_controller.go:1189-1199 | Ascending is by characters: a beginning comes before what it begins, and otherwise the first difference decides |
| Sorting.SortedKeys | internal/controller/devenvironment_controller.go:1189-1199 | Whatever order the map's keys are ranged over in, the result is the same: the one ascending listing of the set |
| Sorting.OneListing | internal/controller/devenvironment_controller.go:1189-1191 | Of which there is only one: two ascending lists with the same members are equal |
| Reconciler.DevEnvironmentReconciler.ReconcileDelete | internal/controller/devenvironment_controller.go:698-732 | The store is as it was or as DeleteResult says: an owned namespace marked once, the finalizer released only when there is none |
| Reconciler.DevEnvironmentReconciler.SetProvisioned | internal/controller/devenvironment_controller.go:734-776 | The conditions assigned one by one come to the status of a success, and a conflict on writing it is no error |
| Reconciler.DevEnvironmentReconciler.SetFailed | internal/controller/devenvironment_controller.go:1059-1080 | The same for the status of a failure, which leaves namespace and counts alone |
| Types.MappingInvertsLabels | internal/controller/mapping.go:40-50 | An object maps to exactly the environment that owns it, and to none exactly when no environment owns it |
| Client.ApiClient.CreateOrUpdate | internal/controller/devenvironment_controller.go:454-470 | Whatever becomes of its requests, the object is as it was or as written; it succeeds exactly when the object may be created or the change is not a forbidden one |
| Progress.GoalStable | internal/controller/devenvironment_controller.go:169-201 | What a pass wants at a key does not change however far any pass has got, even with the server filling in defaults and a source that is its own copy |
| Progress.Composes | internal/controller/devenvironment_controller.go:169-201 | Being on the way is transitive: pieces of passes add up to a piece of a pass |
| Progress.StaysReached | internal/controller/devenvironment_controller.go:454-484 | An object at its goal is not written again, not even its version moves |
| Convergence.Convergence | internal/controller/devenvironment_controller.go:169-201 | From any store that any run of passes, cut off or not, and honest others leads to, a pass that reports no error leaves the namespace owned, the config map equal to the config or absent, every copy equal to its source, the claim there, every service with the spec's content, and exactly the wanted workloads managed save those kept by a foreign finalizer |
| Convergence.AlwaysNamed | internal/controller/devenvironment_controller.go:656-695 | Over every run, what bears the manager's label is named after its service label |
| Convergence.KeptExactly | internal/controller/devenvironment_controller.go:671-694 | A workload under a name the spec does not use stays managed exactly when it was managed with the label of a service the spec does have |
| Convergence.ManagedIsWantedExactly | internal/controller/devenvironment_controller.go:656-695 | At the goal every wanted workload is managed; and everything managed is wanted or kept only by somebody's finalizer exactly when nothing had borrowed a wanted service's label |
| Convergence.ManagedIsWanted | internal/controller/devenvironment_controller.go:656-695 | So it is whenever workloads are named after their service labels |
| Convergence.UnmanagedSpared | internal/controller/devenvironment_controller.go:662-694 | A workload under a name the spec does not use, without the environment's labels or with an empty service label, is touched by no pass |
| Convergence.MislabelledStays | internal/controller/devenvironment_controller.go:671-680 | And a workload that has borrowed a label is not even touched |
| Pruning.DroppedGoes | internal/controller/devenvironment_controller.go:656-695 | After a pass that reports no error a workload under a name the spec does not use, with the manager's label, the environment's name and the label of a service the spec does not have, is gone, or terminating if a finalizer holds it, whatever its other labels |
| Pruning.UndroppedStays | internal/controller/devenvironment_controller.go:656-695 | And no pass touches any other workload under such a name, nor makes one |
| Pruning.EditDrops | internal/controller/devenvironment_controller.go:654-695 | When an edit of a converged environment drops a service, whatever else it changes, the next pass that reports no error takes its Deployment and Service down |
| Convergence.FieldExact | internal/controller/devenvironment_controller.go:610-640 | A managed field the server does not default is present exactly when the spec asks for it, with the spec's value: an fsGroup, volume or pull secret dropped from the spec is gone from the pods |
| Convergence.ConfigContent | internal/controller/devenvironment_controller.go:242-263 | The config map holds the spec's config, and is there only if there is some |
| Convergence.CopyContent | internal/controller/devenvironment_controller.go:268-337 | A copy at its goal is owned and equals its source in type and data, also when the two are one object |
| Content.DeploymentAsAsked | internal/controller/devenvironment_controller.go:453-652 | The stored Deployment of a service has the spec's replicas, labels, image, port and resources, and each of variables, config and secret sources in order, mount, probe, volume, fsGroup and pull secrets - the service's own or else the environment's - just when the spec asks for it, as it asks |
| Content.ServiceAsAsked | internal/controller/devenvironment_controller.go:473-484 | The stored Service is a ClusterIP on the service's port, selecting by environment and service label alone |
| Content.SelectorAsCreated | internal/controller/devenvironment_controller.go:457-462 | A new Deployment selects by the same two labels, an existing one keeps its selector |
| Content.SurroundingsAsAsked | internal/controller/devenvironment_controller.go:242-438 | After success the namespace bears the ownership labels, the config map is there with the config or gone, every Secret the spec mentions is copied with its type and data, and the claim is there |
| Content.NamespaceAsAsked | internal/controller/devenvironment_controller.go:205-239 | A new namespace has the environment's labels and no others, an existing one keeps its own and gains the owner |
| Workloads.ServiceReachesItsPods | internal/controller/devenvironment_controller.go:448-484 | A stored Service that is as the spec has it selects the pods of its own Deployment and of no other service of the environment |
| Workloads.SharedVolumeExactly | internal/controller/devenvironment_controller.go:605-652 | A stored Deployment mounts the shared volume, declares it and bears the fsGroup each exactly when its service and the environment ask for it, whatever it looked like before |
| Workloads.ProbesAct | internal/controller/devenvironment_controller.go:582-603 | It has a readiness probe exactly when its service asks for one, and never a probe without a handler |
| Workloads.PortsAgree | internal/controller/devenvironment_controller.go:474-540 | The port a stored Service sends traffic to is the one its pods listen on and the one a handlerless probe tries |
| Workloads.ClaimOnce | internal/controller/devenvironment_controller.go:405-438 | An existing claim stays as it was; a new one has the spec's size and storage class, and the spec's access modes or else ReadWriteOnce |
| References.ReferentialClosure | internal/controller/devenvironment_controller.go:519-536 | After success every config map, Secret and claim a wanted Deployment names, as stored, exists, and what it pulls images with has a docker type |
| References.NeverDangling | internal/controller/devenvironment_controller.go:169-201 | And no pass, not even one that fails or is cut off, ever leaves a Deployment it has written without something it names |
| References.ResolutionCovered | internal/controller/devenvironment_controller.go:1123-1128 | Inheriting or overriding pull secrets never yields a name that is not copied |
| References.CopiedButUnused | internal/controller/devenvironment_controller.go:1153-1171 | A copied pull secret is used by no service exactly when the environment lists it and every service overrides the list without naming it |
| Secrets.NoStuckSecret | internal/controller/devenvironment_controller.go:294-337 | With the namespace open the Secrets step succeeds exactly when sources are usable and copies owned, whatever types the copies have, although every update of a copy of the wrong type would be refused |
| Secrets.EveryCopyRight | internal/controller/devenvironment_controller.go:268-337 | And then every copy agrees with its source |
| Secrets.ForeignSecretUntouched | internal/controller/devenvironment_controller.go:359-373 | Somebody else's Secret of a referenced name is altered by no pass and makes every pass fail |
| Secrets.UnnamedSecretUntouched | internal/controller/devenvironment_controller.go:268-337 | Nor is any Secret the spec does not name |
| Success.SuccessExactly | internal/controller/devenvironment_controller.go:112-201 | A pass whose requests all arrive reports no error exactly when there is no record, it is being deleted, or the namespace is missing or owned, every Secret mentioned is there, usable and its copy owned or possible, and whatever is still to be made has an open namespace |
| Success.DeletionExactly | internal/controller/devenvironment_controller.go:698-732 | A delete pass marks a namespace of its own and does nothing else; only without one it takes the finalizer off, and the record goes if that was the last; without the finalizer it does nothing |
| Retry.CrashAndRetry | internal/controller/devenvironment_controller.go:112-165 | Passes cut off anywhere, any number of times, and then one that succeeds leave the objects an uninterrupted pass leaves, up to uids and versions, the same status up to transition times, and the same requeue |
| Retry.RetryCanSucceed | internal/controller/devenvironment_controller.go:169-201 | A pass that could have succeeded can still be retried to success after being cut off anywhere |
| Retry.FinishedWritesNothing | internal/controller/devenvironment_controller.go:454-484 | After a success no pass touches any object, and one that sees the same does not touch the record: not even versions move |
| Retry.LastSuccessDecides | internal/controller/devenvironment_controller.go:734-776 | A success overwrites whatever status was written before it, up to transition times |
| Isolation.PassKeepsToItsOwn | internal/controller/devenvironment_controller.go:205-239 | A pass changes its own record, and otherwise only what is in its target namespace, which then is its own |
| Isolation.ForeignNamespaceUntouched | internal/controller/devenvironment_controller.go:708-722 | With an unlabelled or foreign target both provisioning and deletion change the record only, and provisioning fails |
| Isolation.OthersKeepOut | internal/controller/devenvironment_controller.go:1110-1115 | Over any run of passes of other environments, with any specs and cut off anywhere, an environment's record and namespace with all in it stay as they are |
| Atomicity.TurnSparesExactly | internal/controller/devenvironment_controller.go:205-239 | Request by request isolation holds exactly when a worker does not trespass: a turn never touches another's record, and leaves every other environment's namespace and its content alone unless its target is claimed for another by then and the delete, patch or write it sends changes something |
| Atomicity.DeleteSparesExactly | internal/controller/devenvironment_controller.go:708-716 | The delete spares every other environment exactly when the namespace of that name is by then gone, already going, nobody's or still its own |
| Atomicity.SoleTargetSpares | internal/controller/devenvironment_controller.go:205-239 | In every reachable state, while no other stored record has the target a worker works on, no request of that worker, whatever it has read and whatever is lost, touches the record or the namespace of another |
| Atomicity.DeleteHitsAnother | internal/controller/devenvironment_controller.go:708-716 | And it can fail to: from any cluster with two records asking for one missing namespace a run leads to the first one's delete taking down the second one's namespace, which the uid it had read would have prevented |
| Atomicity.EntersExactly | internal/controller/devenvironment_controller.go:207-238 | A worker that creates or patches its namespace goes on into one claimed for another exactly when its request is answered and the namespace is another's by then |
| Atomicity.CreateEntersAnother | internal/controller/devenvironment_controller.go:207-219 | From the same clusters, with nothing deleted, a run leads to a create that is refused, the refusal swallowed, and the worker writing whatever it likes into the other's namespace |
| Atomicity.PatchHitsAnother | internal/controller/devenvironment_controller.go:228-237 | And, after a change of owner in the spec, one to a label patch that lands on the other's namespace |
| Atomicity.RivalsExist | internal/controller/devenvironment_controller.go:205-219 | Such clusters exist: two records that both ask for "dev" |
| Interference.ServeAllEvolves | internal/controller/devenvironment_controller.go:379-397 | Whatever anybody requests, a uid stands for one object, whose Secret type never changes |
| Interference.OnlyWhatWasRead | internal/controller/devenvironment_controller.go:379-397 | After any requests of others the guarded delete removes the object that was read or nothing, that object still has the wrong type, and the outcome tells which |
| Interference.CorrectCopySurvives | internal/controller/devenvironment_controller.go:379-397 | A correct copy somebody put there in the meantime survives, with a conflict |
| Reconciler.DevEnvironmentReconciler.Recreate | internal/controller/devenvironment_controller.go:311-323 | With anything done by anybody between the delete and it, the create changes no object that is there, and succeeds only where there is none; with nobody else, the copy reaches its goal |
| Interference.UidMatters | internal/controller/devenvironment_controller.go:379-383 | Without the uid the delete could remove a correct copy |
| StatusRules.ProvisionedCoherent | internal/controller/devenvironment_controller.go:734-776 | Exactly one of Available, Progressing and Degraded is true and no type occurs twice; Ready exactly when the counts agree; Degraded exactly when not ready and some problem was found |
| StatusRules.AlwaysCoherent | internal/controller/devenvironment_controller.go:734-776 | So after any sequence of status writes, with Failed exactly when the last was a failure |
| Readiness.StatusAfterSuccess | internal/controller/devenvironment_controller.go:734-747 | After a pass that reports no error the status has the namespace, the generation, the number of services and of those serving, is Ready exactly when all serve, and only then the pass is not run again |
| Readiness.ConditionsAfterSuccess | internal/controller/devenvironment_controller.go:749-775 | Its conditions say so with reason and counts, or with the problems found |
| Readiness.StatusAfterFailure | internal/controller/devenvironment_controller.go:1059-1068 | After a failure every condition gives the cause, and namespace and counts are as they were |
| StatusRules.CountsOutliveReady | internal/controller/devenvironment_controller.go:1059-1068 | Equal counts do not mean Ready: a failure after two of two leaves two of two |
| StatusRules.FailureLeavesNoTrace | internal/controller/devenvironment_controller.go:1059-1068 | A failure does not show in the status of the success after it |
| StatusRules.DegradedHolds | internal/controller/devenvironment_controller.go:757-773 | While a crash-looping container's pod is listed and some service is not ready, every status written, of a success or a failure, says Degraded |
| StatusRuns.StatusEverCoherent | internal/controller/devenvironment_controller.go:112-165 | Over any run of anybody's - all environments request by request, losses, crashes, edits, deletions, new records - a record's status is the one it came with or coherent |
| StatusRuns.PassWritesCoherently | internal/controller/devenvironment_controller.go:136-164 | A pass, failed or cut off, leaves the status alone or coherent for the generation it read, saying Ready only with all services of the spec ready and Provisioning only with some not |
| StatusRuns.RequeueUnlessReady | internal/controller/devenvironment_controller.go:161-164 | A pass that reports no error asks to run again exactly when the phase it wrote is not Ready |
| Diagnosis.WorkloadProblems | internal/controller/devenvironment_controller.go:797-856 | The two passes over a map come to one problem per service in spec order |
| Diagnosis.DetailExact | internal/controller/devenvironment_controller.go:782-1046 | Something is reported of a service exactly when one of its pods that is not going is refused a place, or has an init or app container that is not ready and either waits for one of the nine reasons or was started again after a failure and has not ended well; or one of its Deployments is overdue: status caught up, pods of its template or none allowed, deadline exceeded |
| Diagnosis.ReportExact | internal/controller/devenvironment_controller.go:797-856 | The services reported are, in spec order, precisely those |
| Blame.DetailTells | internal/controller/devenvironment_controller.go:906-1046 | What is said of a service: a broken pod before an overdue Deployment, the first listed before the others; of a pod the refusal, then the first broken init container, then the first broken container, each with its exit code, reason or restarts; of a Deployment why no pods can be made, else the probe, unless the pods could not be read |
| Blame.ReportTells | internal/controller/devenvironment_controller.go:844-855 | And every entry of a report names a service of the spec and says that |
| Diagnosis.TroubledOnce | internal/controller/devenvironment_controller.go:844-855 | Each is reported at most once |
| Diagnosis.PodWins | internal/controller/devenvironment_controller.go:829-843 | Where a pod is broken, what is reported is the problem of a broken pod, never the stalled rollout |
| Diagnosis.FailedListing | internal/controller/devenvironment_controller.go:802-812 | A service is reported exactly when it would be with the pod listing failed or with the Deployment listing failed; and without the pods no probe is blamed |
| Diagnosis.ListingOrderIrrelevant | internal/controller/devenvironment_controller.go:845-855 | Which services are reported, and in which order, does not depend on the order of the listings |
| Diagnosis.CrashLoopSeen | internal/controller/devenvironment_controller.go:1002-1046 | On every run of a container's life, from a restart after failure on and while it is never ready and never ends well, it is a problem in every state |
| Diagnosis.CrashLoopReported | internal/controller/devenvironment_controller.go:1029-1043 | And then every report of a listing with its pod names its service |
| NoOrphan.NoOrphanEver | internal/controller/devenvironment_controller.go:125-134 | In every state reachable by single requests, losses and crashes, a namespace with an environment's labels has its record stored, with the finalizer and that target |
| NoOrphan.OneNamespace | internal/controller/devenvironment_controller.go:209-219 | An environment never has two namespaces |
| NoOrphan.DropFinalizerGood | internal/controller/devenvironment_controller.go:727-731 | Dropping the finalizer strands nothing, whatever has happened since the namespace was looked for |
| WakeUps.NoLostWakeUp | internal/controller/devenvironment_controller.go:136-164 | In every reachable state every record is enqueued, on a timer, in a worker's hands, or settled: Ready for its present spec with every Deployment its own and with the ready pods asked for, or released, or with its own namespace terminating |
| WakeUps.IdleMeansDone | internal/controller/devenvironment_controller.go:149-164 | When nothing is enqueued, timed or being worked on, every record not being deleted says Ready for its present generation and each of its Deployments has at least the ready pods its service asks for, or one, and every unreleased deletion waits for a namespace that is terminating |
| WakeUps.ConflictIsCovered | internal/controller/devenvironment_controller.go:1070-1080 | A status write that would be swallowed as a conflict finds its key enqueued already |
| WakeUps.UnwokenIsQuiet | internal/controller/mapping.go:40-50 | A change whose events do not map to an environment has touched neither its record nor its namespaces nor its Deployments |
| WakeUps.WorkAttentive | internal/controller/devenvironment_controller.go:708-719 | Every turn of a worker keeps what it knows true, or ends with nothing left to do, or comes back by itself, or wakes its own environment |
| Teardown.NeverBackwards | internal/controller/devenvironment_controller.go:698-732 | No step of anybody raises the lexicographic rank of a deletion: record, pass still in flight, namespace, content left |
| Teardown.EffectiveLowers | internal/controller/devenvironment_controller.go:698-732 | Every delete or drop by the worker that changes anything, every object the namespace controller takes out and the removal of the namespace strictly lowers it, wherever in a run it falls |
| Teardown.DeletePassLowers | internal/controller/devenvironment_controller.go:698-732 | And so does every delete pass taken whole that changes anything, from any store |
| Teardown.ReleasedOnlyWhenGone | internal/controller/devenvironment_controller.go:727-731 | The finalizer goes by the worker's own doing only, and only when no namespace is labelled as the environment's |
| Completion.FinitelyMany | internal/controller/devenvironment_controller.go:698-732 | On every endless run, whoever acts and whatever is lost, a teardown takes only finitely many effective steps |
| Completion.TeardownEnds | internal/controller/devenvironment_controller.go:698-732 | From every reachable state the worker, losing no request, its timer and the namespace controller can bring the deletion to its end by steps each of which lowers the rank or keeps it and brings the worker nearer; a provisioning pass already in the namespace goes on through its Deployments to its end, and is refused something only where the namespace is not active |
| Fairness.TeardownTerminates | internal/controller/devenvironment_controller.go:698-732 | On every endless run that is weakly fair to the worker, the queue, the timer and the namespace controller, and on which from some point on the controller stays up, the record is left alone and its worker loses no request, the record is released in the end and stays so, whatever everybody else does |
| Fairness.FairRunExists | internal/controller/devenvironment_controller.go:698-732 | And from every reachable state there is such a run |
| Refinement.DeletePassIsRun | internal/controller/devenvironment_controller.go:698-732 | A delete pass that loses nothing is three steps of the machine and ends in the same store |
| Refinement.HeadIsRun | internal/controller/devenvironment_controller.go:112-136 | A provisioning pass is the machine's steps up to the content: finalizer on, namespace at its goal, nothing else changed |
| Refinement.ForeignTargetIsRun | internal/controller/devenvironment_controller.go:224-226 | A foreign target ends the machine's pass with the status a whole pass writes, and a retry |
| Refinement.RequestsAreMoves | internal/controller/devenvironment_controller.go:242-501 | Every create, update and delete of an object in the namespace, whatever becomes of the request, is nothing or one permitted move of the machine |
| Simulation.PassIsRun | internal/controller/devenvironment_controller.go:112-165 | Whatever a whole pass may do to the cluster - succeeding, failing or cut off after any request, provisioning or deleting - is a run of the machine with that worker alone, up to uids, versions and the cause a failure gives |
| Version.NextVersion | hack/next-version.sh:39-107 | It counts from the highest three-place tag, else the highest legacy tag as a.b.0, else 0.0.0, and prints - as strings, padded tags included, while the components leave room - a.b.c+1, a.b+1.0 or a+1.0.0; refuses when tags exist but none counts; prints the highest release for last-release, or nothing |
| Tags.CountsFromIsLatest | hack/next-version.sh:61-80 | The highest tag read as numerals is the one the script counts from |
| Version.NextExceedsExactly | hack/next-version.sh:82-105 | The answer is above the version counted from exactly when the components fit 64-bit arithmetic |
| Version.AnswerWhenFits | hack/next-version.sh:91-105 | Then it exceeds every three-place tag numerically, whatever the padding and ties, and the guard for an existing tag is not reached |
| Tags.LatestIsUnique | hack/next-version.sh:61-80 | Whichever of several equal tags sorts last, the numbers counted from are the same |
| VersionHistory.HistoryMints | hack/next-version.sh:61-105 | Every bump of every history mints a tag, which is then the latest |
| VersionHistory.HistoryIncreases | hack/next-version.sh:93-97 | The versions of a history strictly increase |
| VersionHistory.MintedAboveAll | hack/next-version.sh:67-72 | Each is above every tag there when it is minted, the legacy seed included |
| VersionHistory.HistoryClosedForm | hack/next-version.sh:93-97 | After any history the components count the releases, the majors since the last release and the minors since the last major or release, offset by the seed |
| VersionHistory.ReleasesAreReleases | hack/next-version.sh:44-50 | The tags vR.0.0 are exactly those a release bump minted |
| VersionHistory.LastReleaseIsMostRecent | hack/next-version.sh:44-50 | last-release prints the most recent release, numbered by how many there have been, and nothing when there was none |
| Registry.PatternIsGrammar | api/v1alpha1/devenvironment_types.go:150 | The pattern accepts the empty string and exactly the printed forms of a host, a port from 1 to 65535 if any, and path segments |
| Registry.PatternPlainly | api/v1alpha1/devenvironment_types.go:150 | Spelled out: a host, a colon and the decimal of a port if any, and parts after slashes, each of lowercase letters and digits with dots, underscores and dashes inside |
| Registry.PortMatches | api/v1alpha1/devenvironment_types.go:279 | Its six alternatives for the port accept exactly the canonical decimals of 1 to 65535 |
| Registry.PortPlainly | api/v1alpha1/devenvironment_types.go:279 | That is, the numbers from 1 to 65535 as printed |
| Registry.ParsePrint | api/v1alpha1/devenvironment_types.go:150 | Parsing undoes printing |
| Registry.PrintParse | api/v1alpha1/devenvironment_types.go:150 | Printing undoes parsing on accepted strings |
| Registry.SplitsOneWay | api/v1alpha1/devenvironment_types.go:150 | An accepted string splits in one way only |
| Registry.HostLikeAuthority | internal/controller/devenvironment_controller.go:556-580 | An accepted registry's first segment is a host to Docker exactly when it has a port or a dot or is localhost |
| Registry.SingleNameResolves | internal/controller/devenvironment_controller.go:545-580 | An image without a slash is always put under the service's registry, or else the environment's, and used as it is when there is neither |
| Registry.PathResolves | internal/controller/devenvironment_controller.go:545-580 | An image with a slash is used as written exactly when what is before the first slash is localhost or has a dot, a colon or an uppercase letter |
| Registry.ResolveTwice | internal/controller/devenvironment_controller.go:545-580 | Resolving an image twice is resolving it once exactly when it names a registry itself, and is then used as written, or the configured registry's first segment is a host; otherwise the result's first segment is the registry's host and port |

## Left out

- The manager's cache: reads are current. `replaceOnTypeChange` reads uncached for that reason; elsewhere staleness is not modelled.
- ReplaceOnTypeChange and Recreate are the steps proved under interference within a pass; the other steps of a whole pass are proved with nobody else acting until the pass is over, and `Protocol` interleaves everything but abstracts what is written inside the namespace.
- Protocol: inside its namespace a worker may change any object in any way the server permits, which covers every request of the methods (`Refinement.RequestsAreMoves`) and says nothing about content; that is what the methods and `Between` are for. A record that is edited keeps its target.
- Simulation.PassIsRun: relates passes to runs up to the cause a failed pass reports.
- Retry.CrashAndRetry: assumes nobody else changes the cluster between the attempts.
- Labels are a datatype with one case per key the controller uses; the key strings are not kept.
- Wording of conditions, errors and log hints: only which service, which source of a problem and which cause are kept.
- Resource quantities, probe timings and handlers, mount paths and access modes are opaque values that are copied through; the list of environment variables is kept as the map it is sorted from, and an empty security context is not told apart from none.
- Server-side validation other than of Secret types and Deployment selectors, and the 255 and 253 character limits of names and registries.
- Letters outside ASCII in `strings.ToLower`.
- git itself, the shallow-clone and repository checks, and `first-tag`, which only passes on GNU sort's order.
- Wiring of the manager, logging, flags, leader election, RBAC and deployment manifests.
