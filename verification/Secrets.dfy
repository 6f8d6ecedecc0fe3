// controller.go:268-337 and 342-401: no copy is ever stuck, and nobody else's
// Secret is ever written.
module Secrets {
  import opened Types
  import opened Server
  import opened Goals
  import opened Steps
  import opened Passes
  import opened Convergence
  import opened Plain

  // Every Secret the spec mentions is there beside the record, of a type the
  // kubelet pulls images with where that is what it is for.
  ghost predicate SourcesUsable(s: Store, e: EnvKey, spec: EnvSpec) {
    forall n :: Mentions(spec, n) ==>
      var from := Key(Secret, e.ns, n);
      from in s.objects && (PullsWith(spec, n) ==> DockerType(TypeOf(s.objects[from].body)))
  }

  ghost predicate CopiesMine(s: Store, e: EnvKey, spec: EnvSpec, ns: string) {
    forall n :: Mentions(spec, n) && Key(Secret, ns, n) in s.objects ==>
      Stamped(s.objects[Key(Secret, ns, n)].labels, e)
  }

  // The controller sets none, so a Secret has a finalizer only if somebody
  // else put it there.
  ghost predicate CopiesFree(s: Store, spec: EnvSpec, ns: string) {
    forall n :: Mentions(spec, n) && Key(Secret, ns, n) in s.objects ==> s.objects[Key(Secret, ns, n)].finalizers == {}
  }

  // No update, whatever it does about labels, gives the copy its source's
  // content.
  ghost predicate UpdateRefused(s: Store, env: Env, n: string)
    requires SourceAccepted(s, env, n) && CopyKey(env, n) in s.objects
  {
    var k := CopyKey(env, n);
    var o := s.objects[k];
    forall labels ::
      Server.Update(s, k, o.(labels := labels, body := Apply(Secret, o.body, SourceBody(s, env, n)))) ==
        Reply(s, Err(Invalid))
  }

  predicate WrongType(s: Store, env: Env, n: string) {
    && SourceAccepted(s, env, n) && CopyKey(env, n) in s.objects
    && TypeOf(s.objects[CopyKey(env, n)].body) != TypeOf(SourceBody(s, env, n))
  }

  lemma TypeCannotBeUpdated(s: Store, env: Env, n: string)
    requires Fills(s.fill) && WrongType(s, env, n)
    ensures UpdateRefused(s, env, n)
  {
    TypeKept(s.fill, SourceBody(s, env, n));
    hide SourceAccepted;
  }

  lemma AllowedExactly(s: Store, e: EnvKey, spec: EnvSpec, ns: string, n: string)
    requires IsTarget(ns, e, spec) && e.name != "" && e.ns != ""
    requires Key(Secret, ns, n) in s.objects ==> s.objects[Key(Secret, ns, n)].finalizers == {}
    ensures var from, to := Key(Secret, e.ns, n), Key(Secret, ns, n);
            SecretAllowed(s, Env(e, spec), n, true) <==>
            && from in s.objects && (PullsWith(spec, n) ==> DockerType(TypeOf(s.objects[from].body)))
            && (to in s.objects ==> Stamped(s.objects[to].labels, e))
  {
    hide IsTarget, TargetNamespace, OwnedBy, Stamped, DockerAuth, DockerType, PullsWith, PullNames;
    IsTargetExactly(ns, e, spec);
    MentionsExactly(spec, n);
    if Key(Secret, e.ns, n) in s.objects {
      DockerTypeExactly(TypeOf(s.objects[Key(Secret, e.ns, n)].body));
    }
    if Key(Secret, ns, n) in s.objects {
      StampedExactly(s.objects[Key(Secret, ns, n)].labels, e);
    }
  }

  // With the namespace open, a pass gets through its Secrets exactly when all
  // sources are usable and all copies are its own - whatever types the copies
  // have, although an update of one that has the wrong type is refused.
  lemma NoStuckSecret(s: Store, e: EnvKey, spec: EnvSpec, ns: string)
    requires IsTarget(ns, e, spec) && e.name != "" && e.ns != "" && CopiesFree(s, spec, ns)
    ensures EverySecretAllowed(s, Env(e, spec), true) <==> SourcesUsable(s, e, spec) && CopiesMine(s, e, spec, ns)
    ensures Fills(s.fill) ==> forall n :: WrongType(s, Env(e, spec), n) ==> UpdateRefused(s, Env(e, spec), n)
  {
    hide IsTarget, ReferencedNames, Mentions, PullsWith, OwnedBy, Stamped, SourceAccepted, SourceBody, SecretAllowed,
         Fills, UpdateRefused;
    forall n | Fills(s.fill) && WrongType(s, Env(e, spec), n) ensures UpdateRefused(s, Env(e, spec), n) {
      TypeCannotBeUpdated(s, Env(e, spec), n);
    }
    forall n ensures Mentions(spec, n) <==> n in ReferencedNames(spec) {
      MentionsExactly(spec, n);
    }
    forall n | Mentions(spec, n)
      ensures SecretAllowed(s, Env(e, spec), n, true) <==>
              && Key(Secret, e.ns, n) in s.objects
              && (PullsWith(spec, n) ==> DockerType(TypeOf(s.objects[Key(Secret, e.ns, n)].body)))
              && (Key(Secret, ns, n) in s.objects ==> Stamped(s.objects[Key(Secret, ns, n)].labels, e))
    {
      AllowedExactly(s, e, spec, ns, n);
    }
  }

  // And getting through them makes every copy agree with its source.
  lemma EveryCopyRight(s: Store, t: Store, env: Env, open: bool)
    requires Fills(s.fill) && Between(s, t, env) && EverySecretAllowed(s, env, open) && SecretsReached(s, t, env)
    ensures forall n :: n in ReferencedNames(env.spec) ==> CopyRight(t, env, n)
  {
    hide SecretAllowed, CopyRight, ReferencedNames, Between, Fills;
    forall n | n in ReferencedNames(env.spec) ensures CopyRight(t, env, n) {
      CopyContent(s, t, env, n, open);
    }
  }

  // Somebody else's Secret of a name the spec uses is never altered, and makes
  // every pass report an error.
  lemma ForeignSecretUntouched(s: Store, t: Store, e: EnvKey, n: string)
    requires Pass(s, t, e) && e in s.records && !s.records[e].deleting
    requires var env := EnvOf(e, s.records[e]); n in ReferencedNames(env.spec) && !CopyMine(s, env, n)
    ensures var k := CopyKey(EnvOf(e, s.records[e]), n); ObjAt(t, k) == ObjAt(s, k)
    ensures !WillSucceed(s, e)
  {
    var env := EnvOf(e, s.records[e]);
    var k := CopyKey(env, n);
    hide ReferencedNames;
    assert StepAt(s, t, env, k);
    assert !Replacing(s, env, k);
    assert Goal(s, env, k) == SecretGoal(s, env, n);
    hide Goal, OwnedBy, EnvLabels, Written;
    assert !SecretAllowed(s, env, n, NsOpen(s, env));
  }

  // Nor is any Secret the spec does not name.
  lemma UnnamedSecretUntouched(s: Store, t: Store, e: EnvKey, k: Key)
    requires Pass(s, t, e) && e in s.records && k.kind == Secret
    requires var env := EnvOf(e, s.records[e]); k.ns != TargetNamespace(env) || k.name !in ReferencedNames(env.spec)
    ensures ObjAt(t, k) == ObjAt(s, k)
  {
    if !s.records[e].deleting {
      var env := EnvOf(e, s.records[e]);
      assert StepAt(s, t, env, k);
      hide ReferencedNames;
    }
  }
}
