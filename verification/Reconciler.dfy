// internal/controller/devenvironment_controller.go: the reconciler. Each step
// is proved to move the store towards the goal and never elsewhere, to reach it
// when it reports no error, and - when no request is lost - to report no error
// exactly under a condition on the store it started from.
module Reconciler {
  import opened Text
  import opened Types
  import opened Server
  import opened Goals
  import opened Client
  import opened Progress
  import opened Sorting
  import opened Steps
  import opened Passes
  import opened Diagnosis
  import opened StatusRules
  import opened Interference
  import opened Plain
  import opened Pruning
  import opened Readiness

  datatype Result = Result(requeue: bool, err: Option<Cause>)

  // The controller's own copy of a record, which it edits and writes back.
  class DevEnvironment {
    const key: EnvKey
    var record: Record

    constructor (key: EnvKey, record: Record)
      ensures this.key == key && this.record == record
    {
      this.key := key;
      this.record := record;
    }

    // Lines 1082-1090.
    method SetCondition(kind: ConditionType, status: Truth, reason: Reason, message: Message, now: nat)
      modifies this
      ensures record == old(record).(status := old(record).status.(conditions :=
                Upsert(old(record).status.conditions,
                       Cond(kind, status, reason, message, old(record).generation, now))))
    {
      record := record.(status := record.status.(conditions :=
                  Upsert(record.status.conditions, Cond(kind, status, reason, message, record.generation, now))));
    }
  }

  class DevEnvironmentReconciler {
    const api: ApiClient

    constructor (api: ApiClient)
      ensures this.api == api
    {
      this.api := api;
    }

    // Lines 205-238.
    method ReconcileNamespace(env: Env) returns (err: Option<Cause>)
      requires Valid(api.store)
      modifies api
      ensures Valid(api.store) && Between(old(api.store), api.store, env)
      ensures SameBut(old(api.store), api.store, NsKey(TargetNamespace(env)))
      ensures err.None? ==>
                && NsMine(old(api.store), env)
                && AtGoal(old(api.store), api.store, env, NsKey(TargetNamespace(env)))
                && (NsActive(api.store, TargetNamespace(env)) <==> NsOpen(old(api.store), env))
      ensures !NsMine(old(api.store), env) ==> err.Some? && api.store == old(api.store)
      ensures NsHeld(old(api.store), api.store, env) && (err.None? ==> NsReady(old(api.store), api.store, env))
      ensures Exactly(old(api.faults), api.faults, err.None?, NsMine(old(api.store), env))
    {
      ghost var s := api.store;
      var name := TargetNamespace(env);
      var k := NsKey(name);
      var existing, got := api.Get(k);
      Untouched(s, api.store, env);
      if got == Err(NotFound) {
        CreateFacts(Fate(api.faults), s, k, EnvLabels(env, ""), map[]);
        var created := api.Send(Server.Create(api.store, k, EnvLabels(env, ""), map[]));
        NamespaceHeld(s, api.store, env);
        OneKey(s, api.store, env, k);
        if created.Err? && created.error != AlreadyExists {
          return Some(CallFailed(created.error));
        }
        return None;
      }
      if got.Err? {
        return Some(CallFailed(got.error));
      }
      if !OwnedBy(existing.value.labels, env.key) {
        return Some(NamespaceNotManaged);
      }
      // The patch is the difference to what was read: labels already there
      // with the same value are not part of it.
      var merged := existing.value.labels + EnvLabels(env, "");
      var delta := map l |
        l in EnvLabels(env, "") && (l !in existing.value.labels || existing.value.labels[l] != merged[l]) :: merged[l];
      assert existing.value.labels + delta == merged;
      PatchFacts(Fate(api.faults), s, k, delta);
      var patched := api.Send(PatchLabels(api.store, k, delta));
      OneKey(s, api.store, env, k);
      NamespaceHeld(s, api.store, env);
      if patched.Err? {
        return Some(CallFailed(patched.error));
      }
      return None;
    }

    // Lines 242-263.
    method ReconcileConfigMap(env: Env) returns (err: Option<Cause>)
      requires Valid(api.store)
      modifies api
      ensures Valid(api.store) && Between(old(api.store), api.store, env)
      ensures OnlyKind(old(api.store), api.store, ConfigMap)
      ensures err.None? ==> AtGoal(old(api.store), api.store, env, ConfigKey(env))
      ensures Exactly(old(api.faults), api.faults, err.None?,
                      env.spec.config == map[] || Writable(old(api.store), ConfigKey(env)))
    {
      ghost var s := api.store;
      var k := ConfigKey(env);
      if env.spec.config == map[] {
        DeleteFacts(Fate(api.faults), s, k);
        var deleted := api.Send(Server.Delete(api.store, k, None));
        OneKey(s, api.store, env, k);
        if deleted.Err? && deleted.error != NotFound {
          return Some(CallFailed(deleted.error));
        }
        return None;
      }
      var _, written := api.CreateOrUpdate(k, EnvLabels(env, ""), ConfigBody(env), map[]);
      OneKey(s, api.store, env, k);
      return if written.Ok? then None else Some(CallFailed(written.error));
    }

    // Lines 1160-1171.
    method ReferencedPullSecrets(env: Env) returns (names: seq<string>)
      ensures names == Sorted(PullNames(env.spec))
      ensures Ascending(names) && forall n :: n in names <==> n in PullNames(env.spec)
      ensures forall n :: n in names <==> PullsWith(env.spec, n)
    {
      var seen: set<string> := {};
      for i := 0 to |env.spec.pullSecrets|
        invariant forall n :: n in seen <==> n in env.spec.pullSecrets[..i]
      {
        seen := seen + {env.spec.pullSecrets[i]};
      }
      for i := 0 to |env.spec.services|
        invariant forall n :: n in seen <==>
                    n in env.spec.pullSecrets || exists svc :: svc in env.spec.services[..i] && n in svc.pullSecrets
      {
        seen := seen + ToSet(env.spec.services[i].pullSecrets);
        assert env.spec.services[..i + 1] == env.spec.services[..i] + [env.spec.services[i]];
      }
      assert env.spec.services[..|env.spec.services|] == env.spec.services;
      assert seen == PullNames(env.spec);
      forall n ensures PullsWith(env.spec, n) <==> n in PullNames(env.spec) {
        MentionsExactly(env.spec, n);
      }
      names := SortedKeys(seen);
    }

    // Lines 1176-1187.
    method ReferencedSecrets(env: Env) returns (names: seq<string>)
      ensures names == Sorted(ReferencedNames(env.spec))
      ensures Ascending(names) && forall n :: n in names <==> n in ReferencedNames(env.spec)
      ensures forall n :: n in names <==> Mentions(env.spec, n)
    {
      var pull := ReferencedPullSecrets(env);
      var seen := ToSet(pull);
      for i := 0 to |env.spec.services|
        invariant forall n :: n in seen <==>
                    n in PullNames(env.spec) || exists svc :: svc in env.spec.services[..i] && n in svc.secretRefs
      {
        seen := seen + ToSet(env.spec.services[i].secretRefs);
        assert env.spec.services[..i + 1] == env.spec.services[..i] + [env.spec.services[i]];
      }
      assert env.spec.services[..|env.spec.services|] == env.spec.services;
      assert seen == ReferencedNames(env.spec);
      forall n ensures Mentions(env.spec, n) <==> n in ReferencedNames(env.spec) {
        MentionsExactly(env.spec, n);
      }
      names := SortedKeys(seen);
    }

    // Lines 342-401. `others` is what anybody else does between the read and
    // the delete; the rest of the pass is proved with nobody else acting.
    method ReplaceOnTypeChange(env: Env, name: string, want: Value, others: seq<Request>)
      returns (replaced: bool, err: Option<Cause>)
      modifies api
      ensures OnlyReadIsDeleted(old(api.store), ServeAll(old(api.store), others), api.store, env, CopyKey(env, name),
                                want)
      ensures others == [] && Replacement(old(api.store), env, name, want) ==>
                && Valid(api.store) && Between(old(api.store), api.store, env)
                && SameBut(old(api.store), api.store, CopyKey(env, name))
                && ReplaceDone(old(api.store), api.store, env, name, want, replaced, err.None?)
                && Exactly(old(api.faults), api.faults, err.None?, CopyMine(old(api.store), env, name))
    {
      ghost var s := api.store;
      var k := CopyKey(env, name);
      hide Valid, Between, Goal, OwnedBy, ReferencedNames, ServeAll, Numbered, SourceAccepted, SourceBody;
      NothingServed(s);
      Untouched(s, s, env);
      var existing, got := api.Get(k);
      api.Others(others);
      ghost var t := api.store;
      if got == Err(NotFound) {
        return false, None;
      }
      if got.Err? {
        return false, Some(CallFailed(got.error));
      }
      if !OwnedBy(existing.value.labels, env.key) {
        return false, Some(SecretNotManaged(name));
      }
      if TypeOf(existing.value.body) == want {
        return false, None;
      }
      GuardedDelete(Fate(api.faults), s, others, env, k, want);
      if others == [] && Replacement(s, env, name, want) {
        ReplacingWay(Fate(api.faults), s, env, name, want);
      }
      var deleted := api.Send(Server.Delete(api.store, k, Some(existing.value.uid)));
      if deleted.Err? && deleted.error != NotFound {
        return false, Some(CallFailed(deleted.error));
      }
      return true, None;
    }

    // Lines 311-323: creating a copy whose predecessor has been deleted.
    // `others` is what anybody else does between the two.
    method Recreate(env: Env, name: string, source: Body, others: seq<Request>, ghost s: Store)
      returns (err: Option<Cause>)
      modifies api
      ensures NothingOverwritten(ServeAll(old(api.store), others), api.store, CopyKey(env, name), err.None?)
      ensures others == [] && Recreation(s, old(api.store), env, name, source) ==>
                && Valid(api.store) && Between(s, api.store, env) && SameBut(s, api.store, CopyKey(env, name))
                && (err.None? ==> AtGoal(s, api.store, env, CopyKey(env, name)))
                && Exactly(old(api.faults), api.faults, err.None?,
                           ObjAt(old(api.store), CopyKey(env, name)) == None && NsActive(s, TargetNamespace(env)))
    {
      ghost var before := api.store;
      var k := CopyKey(env, name);
      hide Recreation, NothingOverwritten, ServeAll, Valid, Between, EnvLabels, Goal, NsActive, Server.Create;
      NothingServed(before);
      api.Others(others);
      CreateSpares(Fate(api.faults), api.store, k, EnvLabels(env, ""), source);
      if others == [] && Recreation(s, before, env, name, source) {
        RecreatedWay(Fate(api.faults), s, before, env, name, source);
      }
      var created := api.Send(Server.Create(api.store, k, EnvLabels(env, ""), source));
      return if created.Ok? then None else Some(CallFailed(created.error));
    }

    // Lines 306-334: the copy of a source that has been accepted.
    method PlaceCopy(env: Env, name: string, source: Body) returns (err: Option<Cause>)
      requires Valid(api.store) && name in ReferencedNames(env.spec)
      requires SourceAccepted(api.store, env, name) && source == SourceBody(api.store, env, name)
      modifies api
      ensures Valid(api.store) && Between(old(api.store), api.store, env)
      ensures SameBut(old(api.store), api.store, CopyKey(env, name))
      ensures err.None? ==> AtGoal(old(api.store), api.store, env, CopyKey(env, name))
      ensures Exactly(old(api.faults), api.faults, err.None?,
                      SecretAllowed(old(api.store), env, name, NsActive(old(api.store), TargetNamespace(env))))
    {
      ghost var s := api.store;
      var k := CopyKey(env, name);
      CopyKeyGoal(s, env, name);
      TypeKept(s.fill, source);
      hide Goal, SourceAccepted, SourceBody, OwnedBy, EnvLabels, Valid, Fills, Between, Apply, ReferencedNames,
           NsActive;
      var replaced, failed := ReplaceOnTypeChange(env, name, TypeOf(source), []);
      if failed.Some? {
        return failed;
      }
      if replaced {
        err := Recreate(env, name, source, [], s);
        return;
      }
      ghost var t := api.store;
      assert ObjAt(t, NsKey(TargetNamespace(env))) == ObjAt(s, NsKey(TargetNamespace(env)));
      var _, written := api.CreateOrUpdate(k, EnvLabels(env, ""), source, map[]);
      UpdatedWay(s, t, api.store, env, name, source);
      NsActiveKept(s, t, env);
      return if written.Ok? then None else Some(CallFailed(written.error));
    }

    // The body of the loop at lines 274-335.
    method CopySecret(env: Env, name: string, isPull: bool) returns (err: Option<Cause>)
      requires Valid(api.store) && name in ReferencedNames(env.spec)
      requires isPull <==> name in PullNames(env.spec)
      modifies api
      ensures Valid(api.store) && Between(old(api.store), api.store, env)
      ensures SameBut(old(api.store), api.store, CopyKey(env, name))
      ensures err.None? ==>
                && SourceAccepted(old(api.store), env, name)
                && AtGoal(old(api.store), api.store, env, CopyKey(env, name))
      ensures Exactly(old(api.faults), api.faults, err.None?,
                      SecretAllowed(old(api.store), env, name, NsActive(old(api.store), TargetNamespace(env))))
    {
      var src, got := api.Get(SourceKey(env, name));
      Untouched(api.store, api.store, env);
      hide Goal, Between, Valid;
      if got.Err? {
        return Some(CallFailed(got.error));
      }
      if isPull && !DockerAuth(TypeOf(src.value.body)) {
        return Some(PullSecretType(name));
      }
      err := PlaceCopy(env, name, SecretBody(TypeOf(src.value.body), DataOf(src.value.body)));
    }

    // The loop at lines 274-335.
    method CopySecrets(env: Env, names: seq<string>, pull: seq<string>) returns (err: Option<Cause>)
      requires Valid(api.store) && Ascending(names)
      requires forall n :: n in names ==> n in ReferencedNames(env.spec)
      requires forall n :: n in pull <==> n in PullNames(env.spec)
      modifies api
      ensures Valid(api.store) && Between(old(api.store), api.store, env) && OnlyKind(old(api.store), api.store, Secret)
      ensures err.None? ==> SecretsDone(old(api.store), api.store, env, names, |names|)
      ensures Exactly(old(api.faults), api.faults, err.None?,
                      SecretsAllowed(old(api.store), env, names, |names|,
                                     NsActive(old(api.store), TargetNamespace(env))))
    {
      ghost var s := api.store;
      ghost var open := NsActive(s, TargetNamespace(env));
      assert Fills(s.fill);
      SecretsStart(s, env, names);
      hide SecretsDone, SecretAllowed, Between, SourceAccepted, Goal, Valid, Fills, SameBut, NsActive, OnlyKind,
           ReferencedNames;
      for i := 0 to |names|
        invariant Valid(api.store) && SecretsDone(s, api.store, env, names, i)
        invariant Exactly(old(api.faults), api.faults, true, SecretsAllowed(s, env, names, i, open))
      {
        ghost var t := api.store;
        assert names[i] in names;
        SecretsTurn(s, t, env, names, i);
        err := CopySecret(env, names[i], names[i] in pull);
        SecretsStep(s, t, api.store, env, names, i, err.None?);
        if err.Some? {
          return;
        }
      }
      SecretsEnd(s, api.store, env, names);
      err := None;
    }

    // Lines 268-337.
    method ReconcileSecrets(env: Env) returns (err: Option<Cause>)
      requires Valid(api.store)
      modifies api
      ensures Valid(api.store) && Between(old(api.store), api.store, env) && OnlyKind(old(api.store), api.store, Secret)
      ensures err.None? ==> SecretsReached(old(api.store), api.store, env)
      ensures Exactly(old(api.faults), api.faults, err.None?,
                      EverySecretAllowed(old(api.store), env, NsActive(old(api.store), TargetNamespace(env))))
    {
      var pull := ReferencedPullSecrets(env);
      var names := ReferencedSecrets(env);
      assert forall n :: n in names ==> exists i :: 0 <= i < |names| && names[i] == n;
      ghost var s := api.store;
      err := CopySecrets(env, names, pull);
      if err.None? {
        SecretsEnd(s, api.store, env, names);
      }
    }

    // Lines 405-438.
    method ReconcilePVC(env: Env) returns (err: Option<Cause>)
      requires Valid(api.store)
      modifies api
      ensures Valid(api.store) && Between(old(api.store), api.store, env) && OnlyKind(old(api.store), api.store, Claim)
      ensures err.None? ==> AtGoal(old(api.store), api.store, env, ClaimKey(env))
      ensures Exactly(old(api.faults), api.faults, err.None?,
                      env.spec.storage.None? || Writable(old(api.store), ClaimKey(env)))
    {
      ghost var s := api.store;
      Untouched(s, s, env);
      if env.spec.storage.None? {
        return None;
      }
      var k := ClaimKey(env);
      var _, got := api.Get(k);
      Untouched(s, api.store, env);
      if got.Ok? {
        return None;
      }
      if got != Err(NotFound) {
        return Some(CallFailed(got.error));
      }
      var body := ClaimBody(env.spec.storage.value);
      CreateFacts(Fate(api.faults), s, k, EnvLabels(env, ""), body);
      var created := api.Send(Server.Create(api.store, k, EnvLabels(env, ""), body));
      OneKey(s, api.store, env, k);
      if created.Err? && created.error != AlreadyExists {
        return Some(CallFailed(created.error));
      }
      return None;
    }

    // Lines 453-471.
    method WriteDeployment(env: Env, svc: ServiceSpec) returns (deploy: Option<Obj>, outcome: Outcome)
      requires Valid(api.store) && UniqueNames(env.spec) && svc in env.spec.services
      modifies api
      ensures Valid(api.store) && Between(old(api.store), api.store, env)
      ensures SameBut(old(api.store), api.store, DeployKey(env, svc.name))
      ensures outcome.Ok? ==>
                && AtGoal(old(api.store), api.store, env, DeployKey(env, svc.name))
                && deploy.Some? && deploy == ObjAt(api.store, DeployKey(env, svc.name))
      ensures Exactly(old(api.faults), api.faults, outcome.Ok?, Writable(old(api.store), DeployKey(env, svc.name)))
    {
      ghost var s := api.store;
      WantedGoal(s, env, svc);
      SelectorKept(s.fill, env, svc);
      hide DeploymentBody, Goal, EnvLabels, Valid, Between, Apply, Immutable, NsActive, UniqueNames;
      deploy, outcome :=
        api.CreateOrUpdate(DeployKey(env, svc.name), EnvLabels(env, svc.name), DeploymentBody(env, svc),
                           SelectorBody(env, svc));
      OneKey(s, api.store, env, DeployKey(env, svc.name));
    }

    // Lines 473-488.
    method WriteService(env: Env, svc: ServiceSpec) returns (outcome: Outcome)
      requires Valid(api.store) && UniqueNames(env.spec) && svc in env.spec.services
      modifies api
      ensures Valid(api.store) && Between(old(api.store), api.store, env)
      ensures SameBut(old(api.store), api.store, ServiceKey(env, svc.name))
      ensures outcome.Ok? ==> AtGoal(old(api.store), api.store, env, ServiceKey(env, svc.name))
      ensures Exactly(old(api.faults), api.faults, outcome.Ok?, Writable(old(api.store), ServiceKey(env, svc.name)))
    {
      ghost var s := api.store;
      WantedGoal(s, env, svc);
      SelectorKept(s.fill, env, svc);
      hide ServiceBody, Goal, EnvLabels, Valid, Between, Apply, Immutable, NsActive, UniqueNames;
      var _, written :=
        api.CreateOrUpdate(ServiceKey(env, svc.name), EnvLabels(env, svc.name), ServiceBody(env, svc), map[]);
      outcome := written;
      OneKey(s, api.store, env, ServiceKey(env, svc.name));
    }

    // Lines 442-501.
    method ReconcileService(env: Env, svc: ServiceSpec) returns (isReady: bool, err: Option<Cause>)
      requires Valid(api.store) && UniqueNames(env.spec) && svc in env.spec.services
      modifies api
      ensures Valid(api.store) && Between(old(api.store), api.store, env)
      ensures OnlyWorkload(old(api.store), api.store, env, svc.name)
      ensures err.None? ==>
              WorkloadAtGoal(old(api.store), api.store, env, svc.name) && (isReady <==> ReadyNow(api.store, env, svc))
      ensures err.None? ==>
                forall ns :: IsTarget(ns, env.key, env.spec) ==> ReadyAsStored(api.store, ns, svc, isReady)
      ensures Exactly(old(api.faults), api.faults, err.None?,
                      Writable(old(api.store), DeployKey(env, svc.name)) &&
                        Writable(old(api.store), ServiceKey(env, svc.name)))
    {
      ghost var s := api.store;
      assert Fills(s.fill);
      hide Goal, Valid, Fills, Between, NsActive, UniqueNames, AtGoal, WorkloadAtGoal, SameBut, OnlyWorkload, Writable,
           ReadyAsStored, IsTarget;
      var deploy, deployed := WriteDeployment(env, svc);
      ghost var t := api.store;
      OnlyDeployment(s, t, env, svc);
      if deployed.Err? {
        return false, Some(CallFailed(deployed.error));
      }
      var served := WriteService(env, svc);
      ServiceWay(s, t, api.store, env, svc, served.Ok?);
      if served.Err? {
        return false, Some(CallFailed(served.error));
      }
      isReady := deploy.value.readyReplicas >= DesiredReplicas(svc);
      ReportedAsStored(s, api.store, env, svc);
      err := None;
    }

    // The loop at lines 186-195, which counts the ready services.
    method ReconcileServices(env: Env) returns (ready: nat, err: Option<Cause>)
      requires Valid(api.store) && UniqueNames(env.spec)
      modifies api
      ensures Valid(api.store) && Between(old(api.store), api.store, env) && OnlyWorkloads(old(api.store), api.store)
      ensures err.None? ==>
                && ServicesDone(old(api.store), api.store, env, |env.spec.services|)
                && ready == CountReady(api.store, env, |env.spec.services|)
      ensures err.None? ==>
                forall ns :: IsTarget(ns, env.key, env.spec) ==>
                  ready == |ServingAmong(api.store, ns, env.spec.services, |env.spec.services|)|
      ensures Exactly(old(api.faults), api.faults, err.None?,
                      ServicesWritable(old(api.store), env, |env.spec.services|))
    {
      ghost var s := api.store;
      ready := 0;
      assert Fills(s.fill);
      assert ServicesWritable(s, env, 0) && CountReady(s, env, 0) == 0;
      ServicesStart(s, env);
      hide ServicesDone, Between, Goal, Valid, Fills, OnlyWorkloads, OnlyWorkload, UniqueNames, Writable, ReadyNow,
           WorkloadAtGoal, ServicesWritable, CountReady, DeployKey, ServiceKey, IsTarget, ServingAmong, ReadyAsStored;
      for i := 0 to |env.spec.services|
        invariant Valid(api.store) && ServicesDone(s, api.store, env, i)
        invariant ready == CountReady(api.store, env, i)
        invariant Exactly(old(api.faults), api.faults, true, ServicesWritable(s, env, i))
      {
        ghost var t := api.store;
        ServicesTurn(s, t, env, i);
        ServicesWritableStep(s, env, i);
        var isReady: bool;
        isReady, err := ReconcileService(env, env.spec.services[i]);
        ServicesStep(s, t, api.store, env, i, err.None?);
        CountNext(t, api.store, env, i);
        if err.Some? {
          return;
        }
        if isReady {
          ready := ready + 1;
        }
      }
      ServicesEnded(s, api.store, env, |env.spec.services|);
      CountIsEverybody(api.store, env);
      err := None;
    }

    // Lines 668-694, for one of the two kinds.
    method PruneKind(env: Env, kind: Kind) returns (err: Option<Cause>)
      requires Valid(api.store) && kind != Namespace
      modifies api
      ensures Valid(api.store) && PruneWay(old(api.store), api.store, env, {kind})
      ensures err.None? ==> AllPruned(old(api.store), api.store, env, {kind})
      ensures Exactly(old(api.faults), api.faults, err.None?, true)
    {
      ghost var s := api.store;
      var keys, listed := api.ListManaged(kind, env);
      PruneStart(s, env, kind, keys);
      if listed.Err? {
        return Some(CallFailed(listed.error));
      }
      hide Valid, Prunable, AllPruned, PruneDone, PruneWay, Listed, ToPrune;
      for i := 0 to |keys|
        invariant Valid(api.store) && PruneDone(s, api.store, env, kind, keys, i)
        invariant Exactly(old(api.faults), api.faults, true, true)
      {
        var k := keys[i];
        ghost var t := api.store;
        PruneTurn(s, t, env, kind, keys, i);
        if !Prunable(env, api.store.objects[k].labels) {
          PruneSkip(s, t, env, kind, keys, i);
          continue;
        }
        DeleteFacts(Fate(api.faults), t, k);
        var deleted := api.Send(Server.Delete(api.store, k, None));
        PruneStep(s, t, api.store, env, kind, keys, i, deleted.Ok?);
        if deleted.Err? && deleted.error != NotFound {
          return Some(CallFailed(deleted.error));
        }
      }
      PruneEnd(s, api.store, env, kind, keys);
      err := None;
    }

    // Lines 656-695.
    method PruneServices(env: Env) returns (err: Option<Cause>)
      requires Valid(api.store)
      modifies api
      ensures Valid(api.store) && PruneWay(old(api.store), api.store, env, {Deployment, Kind.Service})
      ensures err.None? ==> AllPruned(old(api.store), api.store, env, {Deployment, Kind.Service})
      ensures forall ns :: IsTarget(ns, env.key, env.spec) ==>
                PrunedByLabel(old(api.store), api.store, ns, env.key, env.spec, err.None?)
      ensures Exactly(old(api.faults), api.faults, err.None?, true)
    {
      ghost var s := api.store;
      hide Valid, PruneWay, AllPruned, IsTarget, PrunedByLabel;
      err := PruneKind(env, Deployment);
      ghost var t := api.store;
      PruneOne(s, t, env);
      if err.None? {
        err := PruneKind(env, Kind.Service);
        PrunedBoth(s, t, api.store, env, err.None?);
      }
      PrunedAsLabelled(s, api.store, env, err.None?);
    }

    // The first half of reconcileEnvironment, lines 172-183.
    method ReconcileSupport(env: Env) returns (err: Option<Cause>)
      requires Valid(api.store)
      modifies api
      ensures Valid(api.store) && Between(old(api.store), api.store, env) && OnlySupport(old(api.store), api.store)
      ensures err.None? ==> SupportReached(old(api.store), api.store, env)
      ensures !NsMine(old(api.store), env) ==> err.Some? && api.store == old(api.store)
      ensures NsHeld(old(api.store), api.store, env) && (err.None? ==> NsReady(old(api.store), api.store, env))
      ensures Exactly(old(api.faults), api.faults, err.None?, SupportSucceeds(old(api.store), env))
    {
      ghost var s0 := api.store;
      assert Fills(s0.fill);
      hide Between, Valid, Fills, Goal, NsMine, AtGoal, SecretsReached, EverySecretAllowed, OnlySupport, SupportReached,
           SupportSucceeds, OnlyKind, SameBut, Writable, NsActive, NsOpen, NsReady, NsHeld;
      err := ReconcileNamespace(env);
      ghost var s1 := api.store;
      SupportAfterNamespace(s0, s1, env);
      if err.Some? {
        NotMine(s0, env);
        return;
      }
      err := ReconcileConfigMap(env);
      ghost var s2 := api.store;
      SupportAfterConfig(s0, s1, s2, env);
      HeldThrough(s0, s1, s2, env, ConfigMap);
      if err.Some? {
        return;
      }
      err := ReconcileSecrets(env);
      ghost var s3 := api.store;
      SupportAfterSecrets(s0, s1, s2, s3, env);
      HeldThrough(s0, s2, s3, env, Secret);
      if err.Some? {
        return;
      }
      err := ReconcilePVC(env);
      SupportAfterClaim(s0, s1, s2, s3, api.store, env, err.None?);
      HeldThrough(s0, s3, api.store, env, Claim);
    }

    // Lines 169-201.
    method ReconcileEnvironment(env: Env) returns (ready: nat, err: Option<Cause>)
      requires Valid(api.store) && UniqueNames(env.spec)
      modifies api
      ensures Valid(api.store) && api.store.records == old(api.store).records
      ensures Between(old(api.store), api.store, env) && SupportFirst(old(api.store), api.store, env)
      ensures err.None? ==>
                && SupportSucceeds(old(api.store), env) && Reached(old(api.store), api.store, env)
                && ready == CountReady(api.store, env, |env.spec.services|)
      ensures err.None? ==>
                forall ns :: IsTarget(ns, env.key, env.spec) ==>
                  ready == |ServingAmong(api.store, ns, env.spec.services, |env.spec.services|)|
      ensures !NsMine(old(api.store), env) ==> err.Some? && api.store == old(api.store)
      ensures NsHeld(old(api.store), api.store, env)
      ensures Exactly(old(api.faults), api.faults, err.None?, Succeeds(old(api.store), env))
    {
      ghost var s0 := api.store;
      ready := 0;
      assert Fills(s0.fill);
      hide Between, Valid, Fills, NsMine, NsReady, NsHeld, SupportReached, SupportSucceeds, SupportFirst, ServicesDone,
           ServicesWritable, Succeeds, Reached, WantedStamped, Pruned, PruneWay, AllPruned, CountReady, UniqueNames,
           IsTarget, ServingAmong;
      err := ReconcileSupport(env);
      ghost var s4 := api.store;
      AfterSupport(s0, s4, env, err.None?);
      if err.Some? {
        return;
      }
      ready, err := ReconcileServices(env);
      ghost var s5 := api.store;
      AfterServices(s0, s4, s5, env, err.None?);
      HeldThroughWorkloads(s0, s4, s5, env);
      if err.Some? {
        return;
      }
      err := PruneServices(env);
      PruneReaches(s5, api.store, env, err.None?);
      AfterPrune(s0, s4, s5, api.store, env, err.None?);
      CountIsEverybody(api.store, env);
      HeldThroughWorkloads(s0, s5, api.store, env);
    }

    // Lines 1070-1080: a conflict is not an error.
    method PatchStatus(env: DevEnvironment) returns (err: Option<Cause>)
      modifies api
      ensures api.faults == Rest(old(api.faults))
      ensures var reply := UpdateStatus(old(api.store), env.key, env.record, env.record.status);
              && api.store == StoreAfter(Fate(old(api.faults)), old(api.store), reply)
              && (err.None? <==>
                  Fate(old(api.faults)) == Clean && (reply.outcome.Ok? || reply.outcome.error == Conflict))
    {
      var updated := api.Send(UpdateStatus(api.store, env.key, env.record, env.record.status));
      return if updated.Err? && updated.error != Conflict then Some(CallFailed(updated.error)) else None;
    }

    // Lines 734-776.
    method SetProvisioned(env: DevEnvironment, ready: nat, seen: Observation, now: nat) returns (err: Option<Cause>)
      modifies api, env
      ensures env.record == old(env.record).(status := StatusOnSuccess(env.key, old(env.record), ready, seen, now))
      ensures api.faults == Rest(old(api.faults))
      ensures var reply := UpdateStatus(old(api.store), env.key, env.record, env.record.status);
              && api.store == StoreAfter(Fate(old(api.faults)), old(api.store), reply)
              && (err.None? <==>
                  Fate(old(api.faults)) == Clean && (reply.outcome.Ok? || reply.outcome.error == Conflict))
    {
      var total := |env.record.spec.services|;
      var allReady := ready == total;
      var phase := Provisioning;
      if allReady {
        phase := Ready;
      }
      var target := TargetNamespace(EnvOf(env.key, env.record));
      env.record := env.record.(status := env.record.status.(
        phase := phase, namespace := target, ready := ready, total := total, generation := env.record.generation));
      var message := ReadyCount(ready, total);
      env.SetCondition(Available, TruthOf(allReady), if allReady then EnvironmentReady else ServicesNotReady, message,
                       now);
      var problems: seq<Problem> := [];
      if !allReady {
        problems := WorkloadProblems(env.record.spec.services, seen);
      }
      if |problems| > 0 {
        env.SetCondition(Progressing, False, WorkloadUnhealthy, Problems(problems), now);
        env.SetCondition(Degraded, True, WorkloadUnhealthy, Problems(problems), now);
      } else {
        env.SetCondition(Progressing, TruthOf(!allReady), if !allReady then ProvisioningReason else Provisioned,
                         message, now);
        env.SetCondition(Degraded, False, ReconcileSucceeded, Succeeded, now);
      }
      err := PatchStatus(env);
    }

    // Lines 1059-1068.
    method SetFailed(env: DevEnvironment, cause: Cause, now: nat) returns (err: Option<Cause>)
      modifies api, env
      ensures env.record ==
              old(env.record).(status := FailedStatus(old(env.record).status, old(env.record).generation, cause, now))
      ensures api.faults == Rest(old(api.faults))
      ensures var reply := UpdateStatus(old(api.store), env.key, env.record, env.record.status);
              && api.store == StoreAfter(Fate(old(api.faults)), old(api.store), reply)
              && (err.None? <==>
                  Fate(old(api.faults)) == Clean && (reply.outcome.Ok? || reply.outcome.error == Conflict))
    {
      env.record := env.record.(status := env.record.status.(phase := Failed, generation := env.record.generation));
      env.SetCondition(Available, False, ProvisioningFailed, Failure(cause), now);
      env.SetCondition(Progressing, False, ProvisioningFailed, Failure(cause), now);
      env.SetCondition(Degraded, True, ReconcileFailed, Failure(cause), now);
      err := PatchStatus(env);
    }

    // Lines 698-732.
    method ReconcileDelete(env: DevEnvironment) returns (result: Result)
      requires Valid(api.store)
      requires env.key in api.store.records && api.store.records[env.key] == env.record && env.record.deleting
      modifies api
      ensures Valid(api.store)
      ensures api.store == old(api.store) || api.store == DeleteResult(old(api.store), env.key)
      ensures Exactly(old(api.faults), api.faults, result.err.None?, true)
      ensures result.err.None? ==> api.store == DeleteResult(old(api.store), env.key) && !result.requeue
    {
      if Ours !in env.record.finalizers {
        return Result(false, None);
      }
      var k := NsKey(TargetNamespace(EnvOf(env.key, env.record)));
      var ns, got := api.Get(k);
      if got.Ok? {
        if OwnedBy(ns.value.labels, env.key) {
          if !ns.value.terminating {
            var deleted := api.Send(Server.Delete(api.store, k, None));
            if deleted.Err? && deleted.error != NotFound {
              return Result(false, Some(CallFailed(deleted.error)));
            }
          }
          return Result(false, None);
        }
      } else if got.error != NotFound {
        return Result(false, Some(CallFailed(got.error)));
      }
      var released := api.Send(UpdateFinalizers(api.store, env.key, env.record, env.record.finalizers - {Ours}));
      if released.Err? {
        return Result(false, Some(CallFailed(released.error)));
      }
      return Result(false, None);
    }

    // Lines 125-134: the finalizer lands before anything is created.
    method EnsureFinalizer(env: DevEnvironment) returns (err: Option<Cause>)
      requires Valid(api.store)
      requires env.key in api.store.records && api.store.records[env.key] == env.record && !env.record.deleting
      modifies api, env
      ensures Valid(api.store) && Pass(old(api.store), api.store, env.key)
      ensures err.None? ==>
                && FinalizerOn(old(api.store), api.store, env.key)
                && api.store.records[env.key] == env.record
      ensures Exactly(old(api.faults), api.faults, err.None?, true)
    {
      ghost var s := api.store;
      if Ours !in env.record.finalizers {
        FinalizerLands(s, env.key);
        var added := api.Send(UpdateFinalizers(api.store, env.key, env.record, env.record.finalizers + {Ours}));
        FinalizerPass(s, api.store, env.key);
        StaysValid(s, api.store);
        hide Pass, Valid;
        if added.Err? {
          return Some(CallFailed(added.error));
        }
        env.record := api.store.records[env.key];
      } else {
        FinalizerPass(s, s, env.key);
      }
      err := None;
    }

    // Lines 136-164.
    method Provision(env: DevEnvironment, seen: Observation, now: nat, ghost s: Store) returns (result: Result)
      requires Valid(api.store) && FinalizerOn(s, api.store, env.key)
      requires api.store.records[env.key] == env.record && UniqueNames(env.record.spec)
      modifies api, env
      ensures Valid(api.store) && Pass(s, api.store, env.key)
      ensures result.err.None? ==> ProvisionSuccess(s, api.store, env.key, seen, now, result.requeue)
      ensures Exactly(old(api.faults), api.faults, result.err.None?,
                      Succeeds(old(api.store), EnvOf(env.key, old(env.record))))
      ensures old(api.faults) == [] && result.err.Some? ==>
                && env.key in api.store.records
                && Some(api.store.records[env.key].status) == FailureStatus(s, env.key, result.err, now)
    {
      ghost var s1 := api.store;
      ghost var r := env.record;
      hide Between, Valid, SupportFirst, Succeeds, SupportSucceeds, Reached, CountReady, UniqueNames, NsMine, NsHeld,
           Pass, ProvisionedStatus, FailedStatus, UpdateStatus, Writes;
      var ready, err := ReconcileEnvironment(EnvOf(env.key, env.record));
      ghost var t := api.store;
      EnvironmentPass(s, s1, t, env.key);
      if err.Some? {
        var failed := SetFailed(env, err.value, now);
        StatusLands(t, env.key, env.record);
        FailureWrites(s, t, env.key, err.value, now);
        StatusPass(s, t, api.store, env.key, env.record);
        StaysValid(t, api.store);
        return Result(false, if failed.Some? then failed else err);
      }
      var written := SetProvisioned(env, ready, seen, now);
      StatusLands(t, env.key, env.record);
      SucceedsSame(s, s1, env.key);
      SuccessPass(s, s1, t, t, env.key);
      SuccessWrites(s, t, env.key, r, ready, seen, now);
      StatusPass(s, t, api.store, env.key, env.record);
      StaysValid(t, api.store);
      if written.Some? {
        return Result(false, written);
      }
      SuccessPass(s, s1, t, api.store, env.key);
      SucceedsSame(s, s1, env.key);
      return Result(ready < |env.record.spec.services|, None);
    }

    // Lines 112-165.
    method Reconcile(e: EnvKey, seen: Observation, now: nat) returns (result: Result)
      requires Valid(api.store)
      requires e in api.store.records ==> UniqueNames(api.store.records[e].spec)
      modifies api
      ensures Valid(api.store) && Pass(old(api.store), api.store, e)
      ensures result.err.None? && e in old(api.store).records && !old(api.store).records[e].deleting ==>
                ProvisionSuccess(old(api.store), api.store, e, seen, now, result.requeue)
      ensures result.err.None? && e in old(api.store).records && old(api.store).records[e].deleting ==>
                api.store == DeleteResult(old(api.store), e) && !result.requeue
      ensures Exactly(old(api.faults), api.faults, result.err.None?, WillSucceed(old(api.store), e))
      ensures old(api.faults) == [] && result.err.Some? ==>
                && e in api.store.records
                && Some(api.store.records[e].status) == FailureStatus(old(api.store), e, result.err, now)
    {
      ghost var s := api.store;
      hide Pass, Valid, ProvisionSuccess, Succeeds, UniqueNames, FailureStatus, DeleteResult;
      NoPass(s, e);
      var got, outcome := api.GetRecord(e);
      if outcome.Err? {
        return Result(false, if outcome.error == NotFound then None else Some(CallFailed(outcome.error)));
      }
      var env := new DevEnvironment(e, got.value);
      if env.record.deleting {
        result := ReconcileDelete(env);
        DeletePass(s, api.store, e);
        return;
      }
      var err := EnsureFinalizer(env);
      if err.Some? {
        return Result(false, err);
      }
      SucceedsSame(s, api.store, e);
      result := Provision(env, seen, now, s);
    }
  }
}
