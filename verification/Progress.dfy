// The laws of being on the way to the goal: the goal does not move, ways
// compose, and what has been reached stays reached.
module Progress {
  import opened Text
  import opened Types
  import opened Server
  import opened Goals

  // Overwriting the managed fields of a stored object with what they were
  // overwritten with before changes nothing, whatever the server filled in.
  lemma Reapply(fill: (Kind, Body) -> Body, kind: Kind, m: Body, desired: Body)
    requires Fills(fill)
    requires OnlyManaged(kind, desired) && Within(desired, m)
    requires forall f :: f in m && Managed(kind, f) ==> f in desired
    ensures fill(kind, Apply(kind, fill(kind, m), desired)) == fill(kind, m)
  {
    assert Within(m, fill(kind, m));
    var again := Apply(kind, fill(kind, m), desired);
    assert Within(m, again) && Within(again, fill(kind, m));
  }

  ghost predicate NoneManaged(kind: Kind, body: Body) {
    forall f :: f in body ==> !Managed(kind, f)
  }

  lemma WrittenAgain(fill: (Kind, Body) -> Body, kind: Kind, was: Option<Obj>, labels: Labels, desired: Body,
                     onCreate: Body)
    requires Fills(fill) && OnlyManaged(kind, desired) && NoneManaged(kind, onCreate)
    ensures var o := Written(fill, kind, was, labels, desired, onCreate);
            && Written(fill, kind, Some(o), labels, desired, onCreate) == o
            && Within(desired, o.body)
            && o.labels == labels
  {
    var m := match was
      case None => Apply(kind, map[], desired) + onCreate
      case Some(o) => Apply(kind, o.body, desired);
    Reapply(fill, kind, m, desired);
    assert Within(m, fill(kind, m));
  }

  // ----- sources -----

  // A copy, fresh or updated in place, agrees with its source in type and
  // data, is owned, and is its own goal.
  lemma CopyAgrees(fill: (Kind, Body) -> Body, env: Env, kind: Value, data: Value, was: Option<Obj>)
    requires Fills(fill)
    ensures var source := SecretBody(kind, data);
            var o := Written(fill, Secret, was, EnvLabels(env, ""), source, map[]);
            && TypeOf(o.body) == kind && DataOf(o.body) == data
            && OwnedBy(o.labels, env.key)
            && CopyGoal(fill, env, source, Some(o)) == Some(o)
  {
    var source := SecretBody(kind, data);
    assert OnlyManaged(Secret, source);
    WrittenAgain(fill, Secret, was, EnvLabels(env, ""), source, map[]);
    StampedIsOwned(env, "", map[]);
    assert source[Type] == kind && source[Data] == data;
    hide EnvLabels, OwnedBy, Fills, Written;
  }

  // A pass does not change what it copies from.
  lemma SourceKept(s: Store, t: Store, env: Env, name: string)
    requires Fills(s.fill) && Between(s, t, env) && name in ReferencedNames(env.spec)
    ensures SourceKey(env, name) in t.objects <==> SourceKey(env, name) in s.objects
    ensures SourceKey(env, name) in s.objects ==>
              && TypeOf(t.objects[SourceKey(env, name)].body) == TypeOf(s.objects[SourceKey(env, name)].body)
              && DataOf(t.objects[SourceKey(env, name)].body) == DataOf(s.objects[SourceKey(env, name)].body)
  {
    var k := SourceKey(env, name);
    assert StepAt(s, t, env, k);
    if env.key.ns == TargetNamespace(env) {
      assert k == CopyKey(env, name);
      if k in s.objects {
        var src := s.objects[k].body;
        CopyAgrees(s.fill, env, TypeOf(src), DataOf(src), FaceAt(s, k));
        hide Written, EnvLabels, OwnedBy, Fills;
      }
    }
  }

  // ----- the goal does not move -----

  lemma CopyGoalStable(fill: (Kind, Body) -> Body, env: Env, kind: Value, data: Value, was: Option<Obj>,
                       now: Option<Obj>)
    requires Fills(fill)
    requires var source := SecretBody(kind, data);
             Step(was, now, CopyGoal(fill, env, source, FaceOf(was)), Replaceable(env, source, FaceOf(was)))
    ensures CopyGoal(fill, env, SecretBody(kind, data), FaceOf(now)) ==
            CopyGoal(fill, env, SecretBody(kind, data), FaceOf(was))
  {
    CopyAgrees(fill, env, kind, data, None);
    CopyAgrees(fill, env, kind, data, FaceOf(was));
    hide Written, EnvLabels, Fills, SecretBody;
  }

  lemma SecretGoalStable(s: Store, t: Store, env: Env, name: string)
    requires Fills(s.fill) && Between(s, t, env)
    ensures SecretGoal(t, env, name) == SecretGoal(s, env, name)
  {
    var k := CopyKey(env, name);
    assert StepAt(s, t, env, k);
    assert Goal(s, env, k) == SecretGoal(s, env, name);
    if name in ReferencedNames(env.spec) {
      SourceKept(s, t, env, name);
      if SourceAccepted(s, env, name) {
        assert SourceAccepted(t, env, name) && SourceBody(t, env, name) == SourceBody(s, env, name);
        var src := s.objects[SourceKey(env, name)].body;
        CopyGoalStable(s.fill, env, TypeOf(src), DataOf(src), ObjAt(s, k), ObjAt(t, k));
      }
    }
  }

  lemma NamespaceGoalStable(s: Store, t: Store, env: Env)
    requires Fills(s.fill) && Between(s, t, env)
    ensures NamespaceGoal(t, env) == NamespaceGoal(s, env)
  {
    assert StepAt(s, t, env, NsKey(TargetNamespace(env)));
    var mine := EnvLabels(env, "");
    StampedIsOwned(env, "", map[]);
    assert mine + mine == mine;
    match FaceAt(s, NsKey(TargetNamespace(env)))
    case None =>
    case Some(o) =>
      StampedIsOwned(env, "", o.labels);
      assert (o.labels + mine) + mine == o.labels + mine;
  }

  lemma ConfigGoalStable(s: Store, t: Store, env: Env)
    requires Fills(s.fill) && Between(s, t, env)
    ensures Goal(t, env, ConfigKey(env)) == Goal(s, env, ConfigKey(env))
  {
    var k := ConfigKey(env);
    assert StepAt(s, t, env, k);
    WrittenAgain(s.fill, k.kind, FaceAt(s, k), EnvLabels(env, ""), ConfigBody(env), map[]);
  }

  // What the controller stamps on a wanted service is not prunable.
  lemma StampNotPrunable(env: Env, svc: ServiceSpec)
    requires HasService(env.spec, svc.name)
    ensures !Prunable(env, EnvLabels(env, svc.name))
  {
  }

  // A goal that does not move when the object is as it was or as wanted.
  lemma WorkloadWritten(fill: (Kind, Body) -> Body, env: Env, svc: ServiceSpec, kind: Kind, was: Option<Obj>,
                        now: Option<Obj>)
    requires Fills(fill) && (kind == Deployment || kind == Kind.Service)
    requires now == was || now == Some(WorkloadObj(fill, env, svc, kind, was))
    ensures WorkloadObj(fill, env, svc, kind, now) == WorkloadObj(fill, env, svc, kind, was)
  {
    DesiredIsManaged(env, svc);
    hide DeploymentBody, ServiceBody, EnvLabels, Fills;
    if kind == Deployment {
      WrittenAgain(fill, kind, was, EnvLabels(env, svc.name), DeploymentBody(env, svc), SelectorBody(env, svc));
    } else {
      WrittenAgain(fill, kind, was, EnvLabels(env, svc.name), ServiceBody(env, svc), map[]);
    }
  }

  lemma WorkloadGoalStable(s: Store, t: Store, env: Env, k: Key)
    requires Fills(s.fill) && Between(s, t, env)
    requires k.kind == Deployment || k.kind == Kind.Service
    requires k.ns == TargetNamespace(env)
    ensures WorkloadGoal(t, env, k) == WorkloadGoal(s, env, k)
  {
    assert StepAt(s, t, env, k);
    assert Goal(s, env, k) == WorkloadGoal(s, env, k);
    hide Goal, Fills, WorkloadObj, Prunable;
    if HasService(env.spec, k.name) {
      WorkloadWritten(s.fill, env, ServiceNamed(env.spec.services, k.name), k.kind, FaceAt(s, k), FaceAt(t, k));
    }
  }

  lemma GoalStable(s: Store, t: Store, env: Env, k: Key)
    requires Fills(s.fill) && Between(s, t, env)
    ensures Goal(t, env, k) == Goal(s, env, k)
  {
    assert StepAt(s, t, env, k);
    if k == NsKey(TargetNamespace(env)) {
      NamespaceGoalStable(s, t, env);
    } else if k.kind != Namespace && k.ns == TargetNamespace(env) {
      match k.kind
      case ConfigMap =>
        if k == ConfigKey(env) {
          ConfigGoalStable(s, t, env);
        }
      case Secret => SecretGoalStable(s, t, env, k.name);
      case Claim =>
      case _ => WorkloadGoalStable(s, t, env, k);
    }
  }

  // ----- ways compose -----

  // A Secret being replaced has not reached its goal.
  lemma ReplacingNotThere(s: Store, env: Env, k: Key)
    requires Fills(s.fill) && Replacing(s, env, k)
    ensures FaceAt(s, k) != Goal(s, env, k) && k in s.objects
  {
    var src := s.objects[SourceKey(env, k.name)].body;
    CopyAgrees(s.fill, env, TypeOf(src), DataOf(src), None);
    hide Written, EnvLabels, OwnedBy, Fills;
    assert k == CopyKey(env, k.name);
  }

  lemma ReplacingKept(s: Store, t: Store, env: Env, k: Key)
    requires Fills(s.fill) && Between(s, t, env) && Replacing(t, env, k)
    requires ObjAt(t, k) == ObjAt(s, k)
    ensures Replacing(s, env, k)
  {
    SourceKept(s, t, env, k.name);
  }

  lemma StepComposes(s: Store, t: Store, u: Store, env: Env, k: Key)
    requires Fills(s.fill) && Between(s, t, env) && Between(t, u, env)
    ensures StepAt(s, u, env, k)
  {
    assert StepAt(s, t, env, k) && StepAt(t, u, env, k);
    GoalStable(s, t, env, k);
    if Replacing(s, env, k) {
      ReplacingNotThere(s, env, k);
    }
    if Replacing(t, env, k) {
      ReplacingNotThere(t, env, k);
      if ObjAt(t, k) == ObjAt(s, k) {
        ReplacingKept(s, t, env, k);
      }
    }
    hide Goal, Replacing, Fills, Between, ObjAt, Step;
    TwoSteps(ObjAt(s, k), ObjAt(t, k), ObjAt(u, k), Goal(s, env, k), Replacing(s, env, k), Replacing(t, env, k));
  }

  lemma TwoSteps(a: Option<Obj>, b: Option<Obj>, c: Option<Obj>, goal: Option<Obj>, first: bool, second: bool)
    requires Step(a, b, goal, first) && Step(b, c, goal, second)
    requires second ==> FaceOf(b) != goal && b.Some? && (b == a ==> first)
    requires first ==> FaceOf(a) != goal
    ensures Step(a, c, goal, first)
  {
  }

  lemma Composes(s: Store, t: Store, u: Store, env: Env)
    requires Fills(s.fill) && Between(s, t, env) && Between(t, u, env)
    ensures Between(s, u, env)
  {
    forall k ensures StepAt(s, u, env, k) && AdmittedAt(s, u, k) {
      StepComposes(s, t, u, env, k);
      assert AdmittedAt(s, t, k) && AdmittedAt(t, u, k);
      StaysOpen(t, u, env, k.ns);
      hide StepAt, NsActive;
    }
  }

  // No pass makes a namespace that is active anything else.
  lemma StaysOpen(s: Store, t: Store, env: Env, ns: string)
    requires Between(s, t, env)
    ensures NsActive(s, ns) ==> NsActive(t, ns)
  {
    assert StepAt(s, t, env, NsKey(ns));
  }

  lemma Untouched(s: Store, t: Store, env: Env)
    requires t.fill == s.fill && t.objects == s.objects
    ensures Between(s, t, env)
  {
    forall k ensures StepAt(s, t, env, k) {
    }
  }

  // What has reached its goal is not touched again.
  lemma StaysReached(s: Store, t: Store, u: Store, env: Env, k: Key)
    requires Fills(s.fill) && Between(s, t, env) && Between(t, u, env)
    requires AtGoal(s, t, env, k)
    ensures ObjAt(u, k) == ObjAt(t, k) && AtGoal(s, u, env, k)
  {
    assert StepAt(t, u, env, k);
    GoalStable(s, t, env, k);
    if Replacing(t, env, k) {
      ReplacingNotThere(t, env, k);
    }
  }
}
