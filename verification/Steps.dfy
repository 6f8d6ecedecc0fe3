// What the steps of a reconcile pass keep and reach, and how they add up.
module Steps {
  import opened Text
  import opened Types
  import opened Server
  import opened Goals
  import opened Client
  import opened Progress
  import opened Sorting

  // ----- conditions for success -----

  predicate NsMine(s: Store, env: Env) {
    var k := NsKey(TargetNamespace(env));
    k in s.objects ==> OwnedBy(s.objects[k].labels, env.key)
  }

  // A missing namespace is created; one going away admits nothing new.
  predicate NsOpen(s: Store, env: Env) {
    var k := NsKey(TargetNamespace(env));
    k in s.objects ==> !s.objects[k].terminating
  }

  predicate Allowed(s: Store, env: Env, k: Key) {
    k in s.objects || NsOpen(s, env)
  }

  predicate ConfigAllowed(s: Store, env: Env) {
    env.spec.config == map[] || Allowed(s, env, ConfigKey(env))
  }

  // The source can be used, and there is no copy, or an owned one that has the
  // right type or can be replaced. `open` says whether the namespace admits
  // new objects.
  predicate SecretAllowed(s: Store, env: Env, name: string, open: bool) {
    && SourceAccepted(s, env, name)
    && match FaceAt(s, CopyKey(env, name))
       case None => open
       case Some(o) =>
         && OwnedBy(o.labels, env.key)
         && (TypeOf(o.body) == TypeOf(SourceBody(s, env, name)) || (o.finalizers == {} && open))
  }

  predicate CopyMine(s: Store, env: Env, name: string) {
    match FaceAt(s, CopyKey(env, name))
    case None => true
    case Some(o) => OwnedBy(o.labels, env.key)
  }

  predicate ClaimAllowed(s: Store, env: Env) {
    env.spec.storage.None? || Allowed(s, env, ClaimKey(env))
  }

  predicate ServiceAllowed(s: Store, env: Env, name: string) {
    Allowed(s, env, DeployKey(env, name)) && Allowed(s, env, ServiceKey(env, name))
  }

  // When a pass that loses no request succeeds.
  predicate Succeeds(s: Store, env: Env) {
    && NsMine(s, env)
    && ConfigAllowed(s, env)
    && (forall n :: n in ReferencedNames(env.spec) ==> SecretAllowed(s, env, n, NsOpen(s, env)))
    && ClaimAllowed(s, env)
    && (forall i :: 0 <= i < |env.spec.services| ==> ServiceAllowed(s, env, env.spec.services[i].name))
  }

  predicate NsOwned(s: Store, env: Env) {
    var k := NsKey(TargetNamespace(env));
    k in s.objects && OwnedBy(s.objects[k].labels, env.key)
  }

  // The namespace is ours, and as wanted.
  ghost predicate NsReady(s: Store, t: Store, env: Env) {
    NsOwned(t, env) && AtGoal(s, t, env, NsKey(TargetNamespace(env)))
  }

  // Whatever has changed, the namespace came first.
  ghost predicate NsHeld(s: Store, t: Store, env: Env) {
    t.objects != s.objects ==> NsReady(s, t, env)
  }

  lemma NamespaceHeld(s: Store, t: Store, env: Env)
    requires SameBut(s, t, NsKey(TargetNamespace(env))) && StepAt(s, t, env, NsKey(TargetNamespace(env)))
    requires NsMine(s, env)
    ensures NsHeld(s, t, env)
    ensures AtGoal(s, t, env, NsKey(TargetNamespace(env))) ==> NsReady(s, t, env)
  {
    var k := NsKey(TargetNamespace(env));
    StampedIsOwned(env, "", map[]);
    if k in s.objects {
      StampedIsOwned(env, "", s.objects[k].labels);
    }
    hide EnvLabels, OwnedBy;
    if ObjAt(t, k) == ObjAt(s, k) {
      assert forall j :: ObjAt(t, j) == ObjAt(s, j);
      SameStore(s, t);
    }
  }

  lemma SameStore(s: Store, t: Store)
    requires forall j :: ObjAt(t, j) == ObjAt(s, j)
    ensures t.objects == s.objects
  {
    forall j ensures j in t.objects <==> j in s.objects {
      assert ObjAt(t, j) == ObjAt(s, j);
    }
    forall j | j in t.objects ensures t.objects[j] == s.objects[j] {
      assert ObjAt(t, j) == ObjAt(s, j);
    }
  }

  lemma StaysHeld(s: Store, t: Store, u: Store, env: Env)
    requires NsReady(s, t, env) && ObjAt(u, NsKey(TargetNamespace(env))) == ObjAt(t, NsKey(TargetNamespace(env)))
    ensures NsReady(s, u, env) && NsHeld(s, u, env)
  {
    hide OwnedBy, Goal;
  }

  // ----- frames -----

  ghost predicate OnlyKind(s: Store, t: Store, kind: Kind) {
    t.fill == s.fill && t.records == s.records && forall k: Key :: k.kind != kind ==> ObjAt(t, k) == ObjAt(s, k)
  }

  lemma HeldThrough(s: Store, t: Store, u: Store, env: Env, kind: Kind)
    requires NsReady(s, t, env) && OnlyKind(t, u, kind) && kind != Namespace
    ensures NsReady(s, u, env) && NsHeld(s, u, env)
  {
    StaysHeld(s, t, u, env);
  }

  lemma HeldThroughWorkloads(s: Store, t: Store, u: Store, env: Env)
    requires NsReady(s, t, env) && OnlyWorkloads(t, u)
    ensures NsReady(s, u, env) && NsHeld(s, u, env)
  {
    StaysHeld(s, t, u, env);
  }

  lemma OneKey(s: Store, t: Store, env: Env, k: Key)
    requires SameBut(s, t, k) && StepAt(s, t, env, k)
    requires k in t.objects && k.kind != Namespace ==> Writable(s, k)
    ensures Between(s, t, env)
  {
    forall j ensures StepAt(s, t, env, j) && AdmittedAt(s, t, j) {
      assert j != k ==> ObjAt(t, j) == ObjAt(s, j);
      assert k.kind != Namespace ==> ObjAt(t, NsKey(k.ns)) == ObjAt(s, NsKey(k.ns));
    }
  }

  // ----- the whole pass -----

  ghost predicate WorkloadsSame(s: Store, t: Store) {
    forall k :: !Supports(k) ==> ObjAt(t, k) == ObjAt(s, k)
  }

  // No workload is touched before all it refers to is in place.
  ghost predicate SupportFirst(s: Store, t: Store, env: Env) {
    WorkloadsSame(s, t) || (SupportSucceeds(s, env) && forall k :: Supports(k) ==> AtGoal(s, t, env, k))
  }

  lemma AfterSupport(s: Store, t: Store, env: Env, ok: bool)
    requires OnlySupport(s, t) && (ok ==> SupportReached(s, t, env))
    ensures SupportFirst(s, t, env) && t.records == s.records
    ensures !SupportSucceeds(s, env) ==> !Succeeds(s, env)
    ensures ok ==> (SupportSucceeds(s, env) ==>
                     (Succeeds(s, env) <==> ServicesWritable(t, env, |env.spec.services|)))
    ensures ok ==> NsMine(s, env)
  {
    if ok {
      forall i | 0 <= i < |env.spec.services|
        ensures ServiceAllowed(s, env, env.spec.services[i].name) <==>
                && Writable(t, DeployKey(env, env.spec.services[i].name))
                && Writable(t, ServiceKey(env, env.spec.services[i].name))
      {
        var name := env.spec.services[i].name;
        assert ObjAt(t, DeployKey(env, name)) == ObjAt(s, DeployKey(env, name));
        assert ObjAt(t, ServiceKey(env, name)) == ObjAt(s, ServiceKey(env, name));
      }
      hide ServiceAllowed, Writable, SecretAllowed, ConfigAllowed, ClaimAllowed, NsMine, ReferencedNames, AtGoal,
           SourceAccepted;
    }
  }

  lemma AfterServices(s: Store, t: Store, u: Store, env: Env, ok: bool)
    requires Fills(s.fill) && Between(s, t, env) && Between(t, u, env)
    requires OnlySupport(s, t) && SupportReached(s, t, env) && OnlyWorkloads(t, u)
    requires ok ==> ServicesDone(t, u, env, |env.spec.services|)
    ensures Between(s, u, env) && SupportFirst(s, u, env) && u.records == s.records
    ensures ok ==> WantedStamped(u, env)
  {
    Composes(s, t, u, env);
    forall k | Supports(k) ensures AtGoal(s, u, env, k) {
      assert ObjAt(u, k) == ObjAt(t, k);
    }
    if ok {
      forall k | k in u.objects && Wanted(env, k) ensures !Prunable(env, u.objects[k].labels) {
        WantedGoalStamped(t, env, k);
        var i :| 0 <= i < |env.spec.services| && env.spec.services[i].name == k.name;
        assert k == DeployKey(env, k.name) || k == ServiceKey(env, k.name);
        assert WorkloadAtGoal(t, u, env, k.name);
      }
    }
  }

  lemma AfterPrune(s: Store, t: Store, u: Store, v: Store, env: Env, ok: bool)
    requires Fills(s.fill) && Between(s, t, env) && Between(t, u, env) && Between(s, u, env) && Between(u, v, env)
    requires SupportReached(s, t, env) && OnlyWorkloads(t, u) && OnlyWorkloads(u, v)
    requires ServicesDone(t, u, env, |env.spec.services|)
    requires ok ==> Pruned(u, v, env, Deployment) && Pruned(u, v, env, Kind.Service)
    ensures Between(s, v, env) && SupportFirst(s, v, env) && v.records == t.records
    ensures ok ==> SupportSucceeds(s, env) && Reached(s, v, env)
    ensures CountReady(v, env, |env.spec.services|) == CountReady(u, env, |env.spec.services|)
  {
    Composes(s, u, v, env);
    forall k | Supports(k) ensures AtGoal(s, v, env, k) {
      assert ObjAt(u, k) == ObjAt(t, k);
      assert ObjAt(v, k) == ObjAt(u, k);
    }
    DeploymentsSettled(t, u, v, env);
    CountSettled(u, v, env, |env.spec.services|);
    if ok {
      forall k | !Supports(k) ensures AtGoal(s, v, env, k) {
        WorkloadReached(s, t, u, v, env, k);
      }
    }
  }

  lemma WorkloadReached(s: Store, t: Store, u: Store, v: Store, env: Env, k: Key)
    requires Fills(s.fill) && Between(s, t, env) && Between(t, u, env) && Between(s, u, env) && Between(u, v, env)
    requires Between(s, v, env)
    requires ServicesDone(t, u, env, |env.spec.services|)
    requires Pruned(u, v, env, Deployment) && Pruned(u, v, env, Kind.Service)
    requires !Supports(k)
    ensures AtGoal(s, v, env, k)
  {
    if Wanted(env, k) {
      var i :| 0 <= i < |env.spec.services| && env.spec.services[i].name == k.name;
      assert k == DeployKey(env, k.name) || k == ServiceKey(env, k.name);
      assert WorkloadAtGoal(t, u, env, k.name);
      StaysReached(t, u, v, env, k);
      GoalStable(s, t, env, k);
    } else if k.ns == TargetNamespace(env) {
      GoalStable(s, u, env, k);
    } else {
      NothingAsked(s, v, env, k);
    }
  }

  // Pruning leaves every wanted Deployment as it was.
  lemma DeploymentsSettled(t: Store, u: Store, v: Store, env: Env)
    requires Fills(t.fill) && Between(t, u, env) && Between(u, v, env) && ServicesDone(t, u, env, |env.spec.services|)
    ensures forall i :: 0 <= i < |env.spec.services| ==>
              ObjAt(v, DeployKey(env, env.spec.services[i].name)) == ObjAt(u, DeployKey(env, env.spec.services[i].name))
  {
    hide Between, Goal, Fills, DeployKey, ServiceKey, ObjAt, AtGoal;
    forall i | 0 <= i < |env.spec.services|
      ensures ObjAt(v, DeployKey(env, env.spec.services[i].name)) == ObjAt(u, DeployKey(env, env.spec.services[i].name))
    {
      assert WorkloadAtGoal(t, u, env, env.spec.services[i].name);
      hide ServicesDone;
      StaysReached(t, u, v, env, DeployKey(env, env.spec.services[i].name));
    }
  }

  lemma {:induction false} CountSettled(u: Store, v: Store, env: Env, n: nat)
    requires n <= |env.spec.services|
    requires forall i :: 0 <= i < |env.spec.services| ==>
               ObjAt(v, DeployKey(env, env.spec.services[i].name)) ==
                 ObjAt(u, DeployKey(env, env.spec.services[i].name))
    ensures CountReady(v, env, n) == CountReady(u, env, n)
  {
    hide DeployKey;
    if n > 0 {
      CountSettled(u, v, env, n - 1);
    }
  }

  // ----- the first half -----

  ghost predicate OnlySupport(s: Store, t: Store) {
    && t.fill == s.fill && t.records == s.records
    && forall k: Key :: k.kind == Deployment || k.kind == Kind.Service ==> ObjAt(t, k) == ObjAt(s, k)
  }

  predicate Supports(k: Key) {
    k.kind != Deployment && k.kind != Kind.Service
  }

  // Everything the workloads refer to is in place.
  ghost predicate SupportReached(s: Store, t: Store, env: Env) {
    && SupportSucceeds(s, env)
    && (forall k :: Supports(k) ==> AtGoal(s, t, env, k))
    && (NsActive(t, TargetNamespace(env)) <==> NsOpen(s, env))
  }

  ghost predicate SupportSucceeds(s: Store, env: Env) {
    && NsMine(s, env)
    && ConfigAllowed(s, env)
    && EverySecretAllowed(s, env, NsOpen(s, env))
    && ClaimAllowed(s, env)
  }

  lemma NotMine(s: Store, env: Env)
    ensures !NsMine(s, env) ==> !SupportSucceeds(s, env)
  {
  }

  // A key the goal leaves as it is stays as it is.
  lemma NothingAsked(s: Store, t: Store, env: Env, k: Key)
    requires Fills(s.fill) && Between(s, t, env) && Goal(s, env, k) == FaceAt(s, k)
    ensures AtGoal(s, t, env, k)
  {
    assert StepAt(s, t, env, k);
    if Replacing(s, env, k) {
      ReplacingNotThere(s, env, k);
    }
  }

  lemma SupportAfterNamespace(s: Store, t: Store, env: Env)
    requires SameBut(s, t, NsKey(TargetNamespace(env)))
    ensures OnlySupport(s, t)
  {
  }

  lemma SupportAfterConfig(s0: Store, s1: Store, s2: Store, env: Env)
    requires Fills(s0.fill) && Between(s0, s1, env) && Between(s1, s2, env)
    requires SameBut(s0, s1, NsKey(TargetNamespace(env))) && OnlyKind(s1, s2, ConfigMap)
    requires NsActive(s1, TargetNamespace(env)) <==> NsOpen(s0, env)
    ensures Between(s0, s2, env) && OnlySupport(s0, s2)
    ensures ConfigAllowed(s0, env) <==> env.spec.config == map[] || Writable(s1, ConfigKey(env))
    ensures NsActive(s2, TargetNamespace(env)) <==> NsOpen(s0, env)
    ensures !ConfigAllowed(s0, env) ==> !SupportSucceeds(s0, env)
    ensures EverySecretAllowed(s2, env, NsActive(s2, TargetNamespace(env))) <==>
            EverySecretAllowed(s0, env, NsOpen(s0, env))
  {
    Composes(s0, s1, s2, env);
    assert ObjAt(s1, ConfigKey(env)) == ObjAt(s0, ConfigKey(env));
    assert ObjAt(s2, NsKey(TargetNamespace(env))) == ObjAt(s1, NsKey(TargetNamespace(env)));
    NsActiveKept(s1, s2, env);
    var open := NsOpen(s0, env);
    forall n | n in ReferencedNames(env.spec)
      ensures SecretAllowed(s2, env, n, open) <==> SecretAllowed(s0, env, n, open)
    {
      assert ObjAt(s2, CopyKey(env, n)) == ObjAt(s1, CopyKey(env, n));
      SecretAllowedKept(s0, s2, env, n);
    }
    hide SecretAllowed, Between, Fills, ReferencedNames;
    forall k: Key | k.kind == Deployment || k.kind == Kind.Service ensures ObjAt(s2, k) == ObjAt(s0, k) {
      assert ObjAt(s2, k) == ObjAt(s1, k);
    }
  }

  lemma SupportAfterSecrets(s0: Store, s1: Store, s2: Store, s3: Store, env: Env)
    requires Fills(s0.fill) && Between(s0, s2, env) && Between(s2, s3, env)
    requires SameBut(s0, s1, NsKey(TargetNamespace(env))) && OnlyKind(s1, s2, ConfigMap) && OnlyKind(s2, s3, Secret)
    requires OnlySupport(s0, s2)
    requires NsActive(s2, TargetNamespace(env)) <==> NsOpen(s0, env)
    ensures Between(s0, s3, env) && OnlySupport(s0, s3)
    ensures ClaimAllowed(s0, env) <==> env.spec.storage.None? || Writable(s3, ClaimKey(env))
    ensures NsActive(s3, TargetNamespace(env)) <==> NsOpen(s0, env)
    ensures !EverySecretAllowed(s0, env, NsOpen(s0, env)) ==> !SupportSucceeds(s0, env)
    ensures !ClaimAllowed(s0, env) ==> !SupportSucceeds(s0, env)
  {
    Composes(s0, s2, s3, env);
    assert ObjAt(s1, ClaimKey(env)) == ObjAt(s0, ClaimKey(env));
    assert ObjAt(s2, ClaimKey(env)) == ObjAt(s1, ClaimKey(env));
    assert ObjAt(s3, ClaimKey(env)) == ObjAt(s2, ClaimKey(env));
    assert ObjAt(s3, NsKey(TargetNamespace(env))) == ObjAt(s2, NsKey(TargetNamespace(env)));
    NsActiveKept(s2, s3, env);
    hide Between, Fills, EverySecretAllowed;
    forall k: Key | k.kind == Deployment || k.kind == Kind.Service ensures ObjAt(s3, k) == ObjAt(s0, k) {
      assert ObjAt(s3, k) == ObjAt(s2, k);
    }
  }

  lemma SupportAfterClaim(s0: Store, s1: Store, s2: Store, s3: Store, s4: Store, env: Env, ok: bool)
    requires Fills(s0.fill) && Between(s0, s1, env) && Between(s1, s2, env) && Between(s0, s2, env)
    requires Between(s2, s3, env) && Between(s0, s3, env) && Between(s3, s4, env)
    requires OnlySupport(s0, s3) && OnlyKind(s3, s4, Claim)
    requires NsActive(s3, TargetNamespace(env)) <==> NsOpen(s0, env)
    requires NsMine(s0, env)
    requires AtGoal(s0, s1, env, NsKey(TargetNamespace(env)))
    requires AtGoal(s1, s2, env, ConfigKey(env))
    requires SecretsReached(s2, s3, env)
    requires ConfigAllowed(s0, env) && EverySecretAllowed(s0, env, NsOpen(s0, env))
    requires ok ==> AtGoal(s3, s4, env, ClaimKey(env)) && ClaimAllowed(s0, env)
    ensures Between(s0, s4, env) && OnlySupport(s0, s4)
    ensures ok ==> SupportReached(s0, s4, env)
    ensures SupportSucceeds(s0, env) <==> ClaimAllowed(s0, env)
  {
    Composes(s0, s3, s4, env);
    forall k: Key | k.kind == Deployment || k.kind == Kind.Service ensures ObjAt(s4, k) == ObjAt(s0, k) {
      assert ObjAt(s4, k) == ObjAt(s3, k);
    }
    if ok {
      assert ObjAt(s4, NsKey(TargetNamespace(env))) == ObjAt(s3, NsKey(TargetNamespace(env)));
      NsActiveKept(s3, s4, env);
      forall n | n in ReferencedNames(env.spec) ensures SourceAccepted(s0, env, n) {
        SourceKept(s0, s2, env, n);
      }
      forall k | Supports(k) ensures AtGoal(s0, s4, env, k) {
        SupportAtGoal(s0, s1, s2, s3, s4, env, k);
      }
    }
  }

  lemma SupportAtGoal(s0: Store, s1: Store, s2: Store, s3: Store, s4: Store, env: Env, k: Key)
    requires Fills(s0.fill) && Between(s0, s1, env) && Between(s1, s2, env) && Between(s0, s2, env)
    requires Between(s2, s3, env) && Between(s0, s3, env) && Between(s3, s4, env)
    requires AtGoal(s0, s1, env, NsKey(TargetNamespace(env)))
    requires AtGoal(s1, s2, env, ConfigKey(env))
    requires SecretsReached(s2, s3, env)
    requires AtGoal(s3, s4, env, ClaimKey(env))
    requires Supports(k)
    ensures AtGoal(s0, s4, env, k)
  {
    Composes(s0, s3, s4, env);
    if k == NsKey(TargetNamespace(env)) {
      Composes(s1, s2, s3, env);
      Composes(s1, s3, s4, env);
      StaysReached(s0, s1, s4, env, k);
    } else if k == ConfigKey(env) {
      GoalStable(s0, s1, env, k);
      Composes(s2, s3, s4, env);
      StaysReached(s0, s2, s4, env, k);
    } else if k.kind == Secret && k.ns == TargetNamespace(env) && k.name in ReferencedNames(env.spec) {
      assert k == CopyKey(env, k.name);
      GoalStable(s0, s2, env, k);
      StaysReached(s0, s3, s4, env, k);
    } else if k == ClaimKey(env) {
      GoalStable(s0, s3, env, k);
    } else {
      SupportUnasked(s0, env, k);
      NothingAsked(s0, s4, env, k);
    }
  }

  lemma SupportUnasked(s: Store, env: Env, k: Key)
    requires Supports(k) && k != NsKey(TargetNamespace(env)) && k != ConfigKey(env) && k != ClaimKey(env)
    requires !(k.kind == Secret && k.ns == TargetNamespace(env) && k.name in ReferencedNames(env.spec))
    ensures Goal(s, env, k) == FaceAt(s, k)
  {
  }

  // ----- the services loop -----

  ghost predicate OnlyWorkloads(s: Store, t: Store) {
    && t.fill == s.fill && t.records == s.records
    && forall k: Key :: k.kind != Deployment && k.kind != Kind.Service ==> ObjAt(t, k) == ObjAt(s, k)
  }

  predicate ServicesWritable(s: Store, env: Env, n: nat)
    requires n <= |env.spec.services|
  {
    forall i :: 0 <= i < n ==>
      Writable(s, DeployKey(env, env.spec.services[i].name)) && Writable(s, ServiceKey(env, env.spec.services[i].name))
  }

  // How many of the first n services are ready.
  function CountReady(s: Store, env: Env, n: nat): (ready: nat)
    requires n <= |env.spec.services|
    ensures ready <= n
  {
    if n == 0 then 0
    else CountReady(s, env, n - 1) + (if ReadyNow(s, env, env.spec.services[n - 1]) then 1 else 0)
  }

  lemma ServicesWritableStep(s: Store, env: Env, i: nat)
    requires i < |env.spec.services|
    ensures ServicesWritable(s, env, 0)
    ensures ServicesWritable(s, env, i + 1) <==>
            && ServicesWritable(s, env, i)
            && Writable(s, DeployKey(env, env.spec.services[i].name))
            && Writable(s, ServiceKey(env, env.spec.services[i].name))
    ensures ServicesWritable(s, env, |env.spec.services|) ==> ServicesWritable(s, env, i + 1)
  {
  }

  lemma CountNext(t: Store, u: Store, env: Env, i: nat)
    requires UniqueNames(env.spec) && i < |env.spec.services| && OnlyWorkload(t, u, env, env.spec.services[i].name)
    ensures CountReady(u, env, i + 1) ==
            CountReady(t, env, i) + (if ReadyNow(u, env, env.spec.services[i]) then 1 else 0)
  {
    CountKept(t, u, env, i, env.spec.services[i].name);
  }

  ghost predicate ServicesDone(s: Store, t: Store, env: Env, n: nat)
    requires n <= |env.spec.services|
  {
    && Between(s, t, env) && OnlyWorkloads(s, t)
    && (forall j :: 0 <= j < n ==> WorkloadAtGoal(s, t, env, env.spec.services[j].name))
    && (forall j :: n <= j < |env.spec.services| ==>
          && ObjAt(t, DeployKey(env, env.spec.services[j].name)) == ObjAt(s, DeployKey(env, env.spec.services[j].name))
          && ObjAt(t, ServiceKey(env, env.spec.services[j].name)) ==
          ObjAt(s, ServiceKey(env, env.spec.services[j].name)))
  }

  lemma ServicesStart(s: Store, env: Env)
    ensures ServicesDone(s, s, env, 0)
  {
    Untouched(s, s, env);
  }

  lemma ServicesEnded(s: Store, t: Store, env: Env, n: nat)
    requires n <= |env.spec.services| && ServicesDone(s, t, env, n)
    ensures Between(s, t, env) && OnlyWorkloads(s, t)
  {
  }

  lemma ServicesTurn(s: Store, t: Store, env: Env, i: nat)
    requires i < |env.spec.services| && ServicesDone(s, t, env, i)
    ensures env.spec.services[i] in env.spec.services
    ensures var name := env.spec.services[i].name;
            && (Writable(t, DeployKey(env, name)) <==> Writable(s, DeployKey(env, name)))
            && (Writable(t, ServiceKey(env, name)) <==> Writable(s, ServiceKey(env, name)))
  {
    assert ObjAt(t, NsKey(TargetNamespace(env))) == ObjAt(s, NsKey(TargetNamespace(env)));
    NsActiveKept(s, t, env);
  }

  lemma WorkloadsOn(s: Store, t: Store, u: Store, env: Env, name: string)
    requires OnlyWorkloads(s, t) && OnlyWorkload(t, u, env, name)
    ensures OnlyWorkloads(s, u)
  {
    forall k: Key | k.kind != Deployment && k.kind != Kind.Service ensures ObjAt(u, k) == ObjAt(s, k) {
      assert ObjAt(u, k) == ObjAt(t, k);
    }
  }

  // A service under another name is as it was.
  lemma OtherWorkloadKept(s: Store, t: Store, u: Store, env: Env, name: string, other: string)
    requires OnlyWorkload(t, u, env, name) && other != name
    ensures ObjAt(u, DeployKey(env, other)) == ObjAt(t, DeployKey(env, other))
    ensures ObjAt(u, ServiceKey(env, other)) == ObjAt(t, ServiceKey(env, other))
    ensures WorkloadAtGoal(s, t, env, other) ==> WorkloadAtGoal(s, u, env, other)
  {
    hide Goal;
  }

  lemma WorkloadFurther(s: Store, t: Store, u: Store, env: Env, name: string)
    requires Fills(s.fill) && Between(s, t, env) && WorkloadAtGoal(t, u, env, name)
    ensures WorkloadAtGoal(s, u, env, name)
  {
    GoalStable(s, t, env, DeployKey(env, name));
    GoalStable(s, t, env, ServiceKey(env, name));
    hide Between, Goal, Fills, DeployKey, ServiceKey;
  }

  // The next service is done, and the others are as they were.
  lemma OneMoreDone(s: Store, t: Store, u: Store, env: Env, i: nat)
    requires UniqueNames(env.spec) && i < |env.spec.services| && ServicesDone(s, t, env, i)
    requires Between(s, u, env) && OnlyWorkloads(s, u) && OnlyWorkload(t, u, env, env.spec.services[i].name)
    requires WorkloadAtGoal(s, u, env, env.spec.services[i].name)
    ensures ServicesDone(s, u, env, i + 1)
  {
    hide Between, ObjAt, WorkloadAtGoal, OnlyWorkload, OnlyWorkloads, DeployKey, ServiceKey;
    forall j | 0 <= j < i + 1 ensures WorkloadAtGoal(s, u, env, env.spec.services[j].name) {
      if j < i {
        OtherWorkloadKept(s, t, u, env, env.spec.services[i].name, env.spec.services[j].name);
      }
    }
    forall j | i + 1 <= j < |env.spec.services|
      ensures ObjAt(u, DeployKey(env, env.spec.services[j].name)) == ObjAt(s, DeployKey(env, env.spec.services[j].name))
      ensures ObjAt(u, ServiceKey(env, env.spec.services[j].name)) ==
              ObjAt(s, ServiceKey(env, env.spec.services[j].name))
    {
      OtherWorkloadKept(s, t, u, env, env.spec.services[i].name, env.spec.services[j].name);
    }
    hide UniqueNames;
  }

  lemma ServicesStep(s: Store, t: Store, u: Store, env: Env, i: nat, ok: bool)
    requires Fills(s.fill) && UniqueNames(env.spec) && i < |env.spec.services| && ServicesDone(s, t, env, i)
    requires Between(t, u, env) && OnlyWorkload(t, u, env, env.spec.services[i].name)
    requires ok ==> WorkloadAtGoal(t, u, env, env.spec.services[i].name)
    ensures Between(s, u, env) && OnlyWorkloads(s, u)
    ensures ok ==> ServicesDone(s, u, env, i + 1)
  {
    ServicesEnded(s, t, env, i);
    hide Between, Fills, UniqueNames, OnlyWorkload, OnlyWorkloads, WorkloadAtGoal, ServicesDone;
    Composes(s, t, u, env);
    WorkloadsOn(s, t, u, env, env.spec.services[i].name);
    if ok {
      WorkloadFurther(s, t, u, env, env.spec.services[i].name);
      OneMoreDone(s, t, u, env, i);
    }
  }

  lemma {:induction false} CountKept(t: Store, u: Store, env: Env, n: nat, name: string)
    requires n <= |env.spec.services| && OnlyWorkload(t, u, env, name)
    requires forall j :: 0 <= j < n ==> env.spec.services[j].name != name
    ensures CountReady(u, env, n) == CountReady(t, env, n)
  {
    if n > 0 {
      CountKept(t, u, env, n - 1, name);
      var k := DeployKey(env, env.spec.services[n - 1].name);
      assert ObjAt(u, k) == ObjAt(t, k);
    }
  }

  // ----- pruning -----

  // Everything of this kind that the spec does not name is at its goal.
  ghost predicate Pruned(s: Store, t: Store, env: Env, kind: Kind) {
    forall k: Key :: k.kind == kind && k.ns == TargetNamespace(env) && !HasService(env.spec, k.name) ==>
      AtGoal(s, t, env, k)
  }

  // What pruning goes by: our labels and the label of a service that is not
  // wanted, whatever the object is called.
  predicate ToPrune(s: Store, env: Env, kinds: set<Kind>, k: Key) {
    k.kind in kinds && k.ns == TargetNamespace(env) && k in s.objects && Prunable(env, s.objects[k].labels)
  }

  // Some of what is to be pruned has been asked to go, and nothing else has
  // changed.
  ghost predicate PruneWay(s: Store, t: Store, env: Env, kinds: set<Kind>) {
    && t.fill == s.fill && t.records == s.records
    && forall k :: || ObjAt(t, k) == ObjAt(s, k)
                   || (ToPrune(s, env, kinds, k) && FaceAt(t, k) == Removed(FaceAt(s, k)) &&
                       FaceAt(s, k) != Removed(FaceAt(s, k)))
  }

  ghost predicate AllPruned(s: Store, t: Store, env: Env, kinds: set<Kind>) {
    forall k :: ToPrune(s, env, kinds, k) ==> FaceAt(t, k) == Removed(FaceAt(s, k))
  }

  ghost predicate PruneDone(s: Store, t: Store, env: Env, kind: Kind, keys: seq<Key>, n: nat)
    requires n <= |keys|
  {
    && PruneWay(s, t, env, {kind})
    && (forall j :: 0 <= j < n && ToPrune(s, env, {kind}, keys[j]) ==>
        FaceAt(t, keys[j]) == Removed(FaceAt(s, keys[j])))
    && (forall j :: n <= j < |keys| ==> ObjAt(t, keys[j]) == ObjAt(s, keys[j]))
  }

  function DesiredReplicas(svc: ServiceSpec): nat {
    match svc.replicas case Some(n) => n case None => 1
  }

  // The service's Deployment has as many ready replicas as were asked for.
  predicate ReadyNow(s: Store, env: Env, svc: ServiceSpec) {
    var k := DeployKey(env, svc.name);
    k in s.objects && s.objects[k].readyReplicas >= DesiredReplicas(svc)
  }

  ghost predicate OnlyWorkload(s: Store, t: Store, env: Env, name: string) {
    && t.fill == s.fill && t.records == s.records
    && forall k :: k != DeployKey(env, name) && k != ServiceKey(env, name) ==> ObjAt(t, k) == ObjAt(s, k)
  }

  ghost predicate WorkloadAtGoal(s: Store, t: Store, env: Env, name: string) {
    AtGoal(s, t, env, DeployKey(env, name)) && AtGoal(s, t, env, ServiceKey(env, name))
  }

  // The goal of a wanted service is what create-or-update leaves behind.
  lemma WantedGoal(s: Store, env: Env, svc: ServiceSpec)
    requires UniqueNames(env.spec) && svc in env.spec.services
    ensures var k := DeployKey(env, svc.name);
            Goal(s, env, k) ==
            Some(Written(s.fill, Deployment, FaceAt(s, k), EnvLabels(env, svc.name), DeploymentBody(env, svc),
                         SelectorBody(env, svc)))
    ensures var k := ServiceKey(env, svc.name);
            Goal(s, env, k) ==
            Some(Written(s.fill, Kind.Service, FaceAt(s, k), EnvLabels(env, svc.name), ServiceBody(env, svc), map[]))
  {
    NamedIs(env.spec, svc);
    hide Goal, DeploymentBody, ServiceBody, EnvLabels, Written, FaceAt, TargetNamespace, ServiceNamed, HasService,
         UniqueNames;
    WantedObj(s, env, DeployKey(env, svc.name));
    WantedObj(s, env, ServiceKey(env, svc.name));
  }

  lemma WantedObj(s: Store, env: Env, k: Key)
    requires Wanted(env, k)
    ensures Goal(s, env, k) ==
            Some(WorkloadObj(s.fill, env, ServiceNamed(env.spec.services, k.name), k.kind, FaceAt(s, k)))
  {
    hide WorkloadObj, FaceAt, TargetNamespace, ServiceNamed, HasService;
  }

  lemma NamedIs(spec: EnvSpec, svc: ServiceSpec)
    requires UniqueNames(spec) && svc in spec.services
    ensures HasService(spec, svc.name) && ServiceNamed(spec.services, svc.name) == svc
  {
    var i :| 0 <= i < |spec.services| && spec.services[i] == svc;
    ServiceNamedIs(spec.services, i);
  }

  lemma OnlyDeployment(s: Store, t: Store, env: Env, svc: ServiceSpec)
    requires SameBut(s, t, DeployKey(env, svc.name))
    ensures OnlyWorkload(s, t, env, svc.name)
    ensures Writable(t, ServiceKey(env, svc.name)) <==> Writable(s, ServiceKey(env, svc.name))
  {
    assert ObjAt(t, ServiceKey(env, svc.name)) == ObjAt(s, ServiceKey(env, svc.name));
    NsActiveKept(s, t, env);
  }

  // A service is its Deployment, then its Service.
  lemma ServiceWay(s: Store, t: Store, u: Store, env: Env, svc: ServiceSpec, ok: bool)
    requires Fills(s.fill) && Between(s, t, env) && Between(t, u, env)
    requires SameBut(s, t, DeployKey(env, svc.name)) && SameBut(t, u, ServiceKey(env, svc.name))
    requires AtGoal(s, t, env, DeployKey(env, svc.name))
    requires ok ==> AtGoal(t, u, env, ServiceKey(env, svc.name))
    ensures Between(s, u, env) && OnlyWorkload(s, u, env, svc.name)
    ensures ObjAt(u, DeployKey(env, svc.name)) == ObjAt(t, DeployKey(env, svc.name))
    ensures ok ==> WorkloadAtGoal(s, u, env, svc.name)
  {
    Composes(s, t, u, env);
    GoalStable(s, t, env, ServiceKey(env, svc.name));
    hide Goal, Fills, Between;
  }

  lemma SelectorKept(fill: (Kind, Body) -> Body, env: Env, svc: ServiceSpec)
    requires Fills(fill)
    ensures forall was :: Immutable(Deployment, was, fill(Deployment, Apply(Deployment, was, DeploymentBody(env, svc))))
    ensures forall was :: Immutable(Kind.Service, was,
                                    fill(Kind.Service, Apply(Kind.Service, was, ServiceBody(env, svc))))
  {
    DesiredIsManaged(env, svc);
    var desired := DeploymentBody(env, svc);
    hide DeploymentBody, ServiceBody;
    forall was ensures Immutable(Deployment, was, fill(Deployment, Apply(Deployment, was, desired))) {
      var given := Apply(Deployment, was, desired);
      assert Within(given, fill(Deployment, given));
    }
  }

  ghost predicate SecretsReached(s: Store, t: Store, env: Env) {
    forall n :: n in ReferencedNames(env.spec) ==> SourceAccepted(s, env, n) && AtGoal(s, t, env, CopyKey(env, n))
  }

  ghost predicate EverySecretAllowed(s: Store, env: Env, open: bool) {
    forall n :: n in ReferencedNames(env.spec) ==> SecretAllowed(s, env, n, open)
  }

  ghost predicate SecretsAllowed(s: Store, env: Env, names: seq<string>, n: nat, open: bool)
    requires n <= |names|
  {
    forall i :: 0 <= i < n ==> SecretAllowed(s, env, names[i], open)
  }

  // The first i secrets are in place, and the others have not been looked at.
  ghost predicate SecretsDone(s: Store, t: Store, env: Env, names: seq<string>, i: nat)
    requires i <= |names|
  {
    && Between(s, t, env) && OnlyKind(s, t, Secret)
    && (forall j :: 0 <= j < i ==> SourceAccepted(s, env, names[j]) && AtGoal(s, t, env, CopyKey(env, names[j])))
    && (forall j :: i <= j < |names| ==> ObjAt(t, CopyKey(env, names[j])) == ObjAt(s, CopyKey(env, names[j])))
  }

  lemma SecretsStart(s: Store, env: Env, names: seq<string>)
    ensures SecretsDone(s, s, env, names, 0)
  {
    Untouched(s, s, env);
  }

  lemma SecretsEnd(s: Store, t: Store, env: Env, names: seq<string>)
    requires SecretsDone(s, t, env, names, |names|)
    ensures Between(s, t, env) && OnlyKind(s, t, Secret)
    ensures forall n :: n in names ==> SourceAccepted(s, env, n) && AtGoal(s, t, env, CopyKey(env, n))
  {
    hide Between, Goal, SourceAccepted;
  }

  // Nothing done so far bears on whether the next secret can be copied.
  lemma SecretsTurn(s: Store, t: Store, env: Env, names: seq<string>, i: nat)
    requires Fills(s.fill) && i < |names| && SecretsDone(s, t, env, names, i)
    requires names[i] in ReferencedNames(env.spec)
    ensures SourceAccepted(t, env, names[i]) <==> SourceAccepted(s, env, names[i])
    ensures NsActive(t, TargetNamespace(env)) <==> NsActive(s, TargetNamespace(env))
    ensures forall open :: SecretAllowed(t, env, names[i], open) <==> SecretAllowed(s, env, names[i], open)
  {
    SecretAllowedKept(s, t, env, names[i]);
    assert ObjAt(t, NsKey(TargetNamespace(env))) == ObjAt(s, NsKey(TargetNamespace(env)));
  }

  lemma SecretsStep(s: Store, t: Store, u: Store, env: Env, names: seq<string>, i: nat, ok: bool)
    requires Fills(s.fill) && i < |names| && Ascending(names) && SecretsDone(s, t, env, names, i)
    requires Between(t, u, env) && SameBut(t, u, CopyKey(env, names[i]))
    requires ok ==> SourceAccepted(s, env, names[i]) && AtGoal(t, u, env, CopyKey(env, names[i]))
    ensures Between(s, u, env) && OnlyKind(s, u, Secret)
    ensures ok ==> SecretsDone(s, u, env, names, i + 1)
  {
    Composes(s, t, u, env);
    GoalStable(s, t, env, CopyKey(env, names[i]));
    hide Between, Goal, SourceAccepted;
    forall k: Key | k.kind != Secret ensures ObjAt(u, k) == ObjAt(s, k) {
    }
  }

  // Deleting and creating anew is a way to the goal as well.
  lemma ReplacedWay(s: Store, t: Store, u: Store, env: Env, name: string)
    requires Fills(s.fill) && Between(s, t, env) && SameBut(s, t, CopyKey(env, name))
    requires SameBut(t, u, CopyKey(env, name))
    requires name in ReferencedNames(env.spec) && SourceAccepted(s, env, name)
    requires ObjAt(u, CopyKey(env, name)) == ObjAt(t, CopyKey(env, name)) ||
             (ObjAt(t, CopyKey(env, name)) == None && FaceAt(u, CopyKey(env, name)) == Goal(s, env, CopyKey(env, name)))
    requires CopyKey(env, name) in u.objects ==> Writable(t, CopyKey(env, name))
    ensures Between(s, u, env)
  {
    var k := CopyKey(env, name);
    assert StepAt(s, t, env, k);
    if Replacing(s, env, k) {
      ReplacingNotThere(s, env, k);
    }
    hide Goal, Replacing, Fills;
    assert ObjAt(u, NsKey(k.ns)) == ObjAt(t, NsKey(k.ns));
    forall j ensures StepAt(s, u, env, j) && AdmittedAt(s, u, j) {
      assert StepAt(s, t, env, j) && AdmittedAt(s, t, j);
      assert ObjAt(u, NsKey(j.ns)) == ObjAt(t, NsKey(j.ns));
    }
  }

  lemma NsActiveKept(s: Store, t: Store, env: Env)
    requires ObjAt(t, NsKey(TargetNamespace(env))) == ObjAt(s, NsKey(TargetNamespace(env)))
    ensures NsActive(t, TargetNamespace(env)) <==> NsActive(s, TargetNamespace(env))
  {
  }

  lemma TypeKept(fill: (Kind, Body) -> Body, source: Body)
    requires Fills(fill) && Type in source
    ensures forall was :: Immutable(Secret, was, fill(Secret, Apply(Secret, was, source))) <==>
            TypeOf(was) == TypeOf(source)
  {
    forall was ensures TypeOf(fill(Secret, Apply(Secret, was, source))) == TypeOf(source) {
      var given := Apply(Secret, was, source);
      assert Within(given, fill(Secret, given));
    }
  }

  lemma CopyKeyGoal(s: Store, env: Env, name: string)
    requires name in ReferencedNames(env.spec) && SourceAccepted(s, env, name)
    ensures Goal(s, env, CopyKey(env, name)) ==
            CopyGoal(s.fill, env, SourceBody(s, env, name), FaceAt(s, CopyKey(env, name)))
  {
  }

  lemma FreshCopy(fill: (Kind, Body) -> Body, env: Env, source: Body)
    ensures Written(fill, Secret, None, EnvLabels(env, ""), source, map[]) ==
            Obj(0, 0, EnvLabels(env, ""), {}, false, fill(Secret, source), 0)
  {
    assert Apply(Secret, map[], source) + map[] == source;
  }

  // A copy of the right type is created or updated in place.
  lemma UpdatedWay(s: Store, t: Store, u: Store, env: Env, name: string, source: Body)
    requires SameBut(s, t, CopyKey(env, name)) && SameBut(t, u, CopyKey(env, name))
    requires name in ReferencedNames(env.spec) && SourceAccepted(s, env, name)
    requires source == SourceBody(s, env, name)
    requires ObjAt(t, CopyKey(env, name)) == ObjAt(s, CopyKey(env, name))
    requires var was := FaceAt(s, CopyKey(env, name));
             && (was.Some? ==> OwnedBy(was.value.labels, env.key) && TypeOf(was.value.body) == TypeOf(source))
             && var goal := Some(Written(s.fill, Secret, was, EnvLabels(env, ""), source, map[]));
                ObjAt(u, CopyKey(env, name)) == ObjAt(s, CopyKey(env, name)) ||
                  (FaceAt(u, CopyKey(env, name)) == goal && was != goal)
    requires CopyKey(env, name) in u.objects ==> Writable(t, CopyKey(env, name))
    ensures Between(s, u, env)
  {
    var k := CopyKey(env, name);
    CopyKeyGoal(s, env, name);
    assert ObjAt(u, NsKey(k.ns)) == ObjAt(s, NsKey(k.ns)) && ObjAt(t, NsKey(k.ns)) == ObjAt(s, NsKey(k.ns));
    assert StepAt(s, u, env, k);
    hide Goal, Replacing, SourceAccepted, SourceBody, ReferencedNames, EnvLabels, Written;
    forall j ensures StepAt(s, u, env, j) && AdmittedAt(s, u, j) {
      assert j != k ==> ObjAt(u, j) == ObjAt(s, j);
    }
  }

  lemma SecretAllowedKept(s: Store, t: Store, env: Env, name: string)
    requires Fills(s.fill) && Between(s, t, env) && name in ReferencedNames(env.spec)
    requires ObjAt(t, CopyKey(env, name)) == ObjAt(s, CopyKey(env, name))
    ensures SourceAccepted(t, env, name) <==> SourceAccepted(s, env, name)
    ensures forall open :: SecretAllowed(t, env, name, open) <==> SecretAllowed(s, env, name, open)
  {
    SourceKept(s, t, env, name);
  }

  predicate Wanted(env: Env, k: Key) {
    (k.kind == Deployment || k.kind == Kind.Service) && k.ns == TargetNamespace(env) && HasService(env.spec, k.name)
  }

  // What bears the name of a wanted service is not prunable: it has just been
  // written.
  ghost predicate WantedStamped(s: Store, env: Env) {
    forall k :: k in s.objects && Wanted(env, k) ==> !Prunable(env, s.objects[k].labels)
  }

  // What a listing returned.
  ghost predicate Listing(s: Store, env: Env, kind: Kind, keys: seq<Key>) {
    && (forall i, j :: 0 <= i < j < |keys| ==> keys[i] != keys[j])
    && forall k :: k in keys <==>
         k in s.objects && k.kind == kind && k.ns == TargetNamespace(env) && Listed(env, s.objects[k].labels)
  }

  lemma PruneStart(s: Store, env: Env, kind: Kind, keys: seq<Key>)
    ensures PruneDone(s, s, env, kind, keys, 0)
  {
  }

  lemma PruneTurn(s: Store, t: Store, env: Env, kind: Kind, keys: seq<Key>, i: nat)
    requires i < |keys| && Listing(s, env, kind, keys) && PruneDone(s, t, env, kind, keys, i)
    ensures keys[i] in s.objects && keys[i] in t.objects && ObjAt(t, keys[i]) == ObjAt(s, keys[i])
    ensures ToPrune(s, env, {kind}, keys[i]) <==> Prunable(env, t.objects[keys[i]].labels)
    ensures keys[i].kind == kind
  {
    assert keys[i] in keys;
    hide Prunable;
  }

  lemma PruneSkip(s: Store, t: Store, env: Env, kind: Kind, keys: seq<Key>, i: nat)
    requires i < |keys| && PruneDone(s, t, env, kind, keys, i) && !ToPrune(s, env, {kind}, keys[i])
    ensures PruneDone(s, t, env, kind, keys, i + 1)
  {
    hide PruneWay, ToPrune;
  }

  // Nothing is to be done about a workload that is neither wanted nor prunable.
  lemma UnlistedGoal(s: Store, env: Env, k: Key)
    requires k.kind == Deployment || k.kind == Kind.Service
    requires k in s.objects ==> !Prunable(env, s.objects[k].labels)
    ensures !HasService(env.spec, k.name) ==> Goal(s, env, k) == FaceAt(s, k)
  {
    hide Prunable, DeploymentBody, ServiceBody, EnvLabels;
  }

  lemma PrunableGoal(s: Store, env: Env, k: Key)
    requires k.kind == Deployment || k.kind == Kind.Service
    requires k.ns == TargetNamespace(env) && WantedStamped(s, env)
    requires k in s.objects && Prunable(env, s.objects[k].labels)
    ensures Goal(s, env, k) == Removed(FaceAt(s, k))
  {
    hide Prunable, DeploymentBody, ServiceBody, EnvLabels;
  }

  lemma PruneStep(s: Store, t: Store, u: Store, env: Env, kind: Kind, keys: seq<Key>, i: nat, ok: bool)
    requires i < |keys| && Listing(s, env, kind, keys) && PruneDone(s, t, env, kind, keys, i)
    requires ToPrune(s, env, {kind}, keys[i]) && ObjAt(t, keys[i]) == ObjAt(s, keys[i])
    requires SameBut(t, u, keys[i])
    requires var was := FaceAt(t, keys[i]);
             ObjAt(u, keys[i]) == ObjAt(t, keys[i]) || (FaceAt(u, keys[i]) == Removed(was) && was != Removed(was))
    requires ok ==> FaceAt(u, keys[i]) == Removed(FaceAt(t, keys[i]))
    ensures PruneWay(s, u, env, {kind})
    ensures ok ==> PruneDone(s, u, env, kind, keys, i + 1)
  {
    hide ToPrune, Removed, Listed;
  }

  lemma PruneEnd(s: Store, t: Store, env: Env, kind: Kind, keys: seq<Key>)
    requires Listing(s, env, kind, keys) && PruneDone(s, t, env, kind, keys, |keys|)
    ensures PruneWay(s, t, env, {kind}) && AllPruned(s, t, env, {kind})
  {
    forall k | ToPrune(s, env, {kind}, k) ensures FaceAt(t, k) == Removed(FaceAt(s, k)) {
      assert k in keys;
      var j :| 0 <= j < |keys| && keys[j] == k;
    }
  }

  // When what bears a wanted name has just been written, pruning by labels is
  // on the way to the goal, and reaches it.
  lemma PruneReaches(s: Store, t: Store, env: Env, ok: bool)
    requires WantedStamped(s, env) && PruneWay(s, t, env, {Deployment, Kind.Service})
    requires ok ==> AllPruned(s, t, env, {Deployment, Kind.Service})
    ensures Between(s, t, env) && OnlyWorkloads(s, t)
    ensures ok ==> Pruned(s, t, env, Deployment) && Pruned(s, t, env, Kind.Service)
  {
    forall k ensures StepAt(s, t, env, k) && AdmittedAt(s, t, k) {
      if ToPrune(s, env, {Deployment, Kind.Service}, k) {
        PrunableGoal(s, env, k);
      }
      hide Goal, Prunable, Removed, WantedStamped;
    }
    if ok {
      forall k: Key | (k.kind == Deployment || k.kind == Kind.Service) && k.ns == TargetNamespace(env) &&
        !HasService(env.spec, k.name)
        ensures AtGoal(s, t, env, k)
      {
        if ToPrune(s, env, {Deployment, Kind.Service}, k) {
          PrunableGoal(s, env, k);
        } else {
          UnlistedGoal(s, env, k);
        }
        hide Goal, Prunable, Removed, WantedStamped, HasService;
      }
    }
    hide Goal, Prunable, Removed, WantedStamped, HasService;
  }

  lemma WantedGoalStamped(s: Store, env: Env, k: Key)
    requires Wanted(env, k)
    ensures Goal(s, env, k).Some? && !Prunable(env, Goal(s, env, k).value.labels)
  {
    var svc := ServiceNamed(env.spec.services, k.name);
    StampNotPrunable(env, svc);
    hide Prunable, DeploymentBody, ServiceBody, EnvLabels;
  }

  // Pruning Deployments leaves the Services to be pruned as they were.
  lemma PrunedBoth(s: Store, t: Store, u: Store, env: Env, ok: bool)
    requires PruneWay(s, t, env, {Deployment}) && AllPruned(s, t, env, {Deployment})
    requires PruneWay(t, u, env, {Kind.Service}) && (ok ==> AllPruned(t, u, env, {Kind.Service}))
    ensures PruneWay(s, u, env, {Deployment, Kind.Service})
    ensures ok ==> AllPruned(s, u, env, {Deployment, Kind.Service})
  {
    hide Prunable, Removed;
  }

  lemma PruneOne(s: Store, t: Store, env: Env)
    requires PruneWay(s, t, env, {Deployment})
    ensures PruneWay(s, t, env, {Deployment, Kind.Service})
  {
    hide Prunable, Removed;
  }
}
