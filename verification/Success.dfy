// controller.go:112-201 and 698-732: when a pass reports no error, and what a
// deletion comes to, told by what is stored when it begins.
module Success {
  import opened Text
  import opened Types
  import opened Server
  import opened Goals
  import opened Steps
  import opened Passes
  import opened Plain

  // The namespace is missing or there to be written in.
  predicate Open(s: Store, ns: string) {
    NsKey(ns) in s.objects ==> !s.objects[NsKey(ns)].terminating
  }

  // A Secret the spec mentions: there, of a docker type if images are pulled
  // with it; and its copy missing, or owned and of the same type, or owned and
  // free to be deleted and made anew.
  predicate CopyPossible(s: Store, e: EnvKey, spec: EnvSpec, ns: string, name: string) {
    var from, to := Key(Secret, e.ns, name), Key(Secret, ns, name);
    && from in s.objects
    && (PullsWith(spec, name) ==> DockerType(TypeOf(s.objects[from].body)))
    && (to !in s.objects ==> Open(s, ns))
    && (to in s.objects ==>
          && Stamped(s.objects[to].labels, e)
          && (TypeOf(s.objects[to].body) == TypeOf(s.objects[from].body) ||
              (s.objects[to].finalizers == {} && Open(s, ns))))
  }

  predicate ThereOrOpen(s: Store, ns: string, k: Key) {
    k in s.objects || Open(s, ns)
  }

  // The namespace is missing or owned, the Secrets can be copied, and what is
  // still to be created has a namespace to be created in.
  ghost predicate Possible(s: Store, e: EnvKey, spec: EnvSpec, ns: string) {
    && (NsKey(ns) in s.objects ==> Stamped(s.objects[NsKey(ns)].labels, e))
    && (spec.config != map[] ==> ThereOrOpen(s, ns, Key(ConfigMap, ns, e.name + "-config")))
    && (forall n :: Mentions(spec, n) ==> CopyPossible(s, e, spec, ns, n))
    && (spec.storage.Some? ==> ThereOrOpen(s, ns, Key(Claim, ns, e.name + "-workspace")))
    && (forall svc :: svc in spec.services ==>
          && ThereOrOpen(s, ns, Key(Deployment, ns, svc.name))
          && ThereOrOpen(s, ns, Key(Kind.Service, ns, svc.name)))
  }

  lemma CopyExactly(s: Store, e: EnvKey, spec: EnvSpec, ns: string, name: string)
    requires IsTarget(ns, e, spec) && e.name != "" && e.ns != ""
    ensures CopyPossible(s, e, spec, ns, name) <==>
            SecretAllowed(s, Env(e, spec), name, NsOpen(s, Env(e, spec)))
  {
    var from, to := Key(Secret, e.ns, name), Key(Secret, ns, name);
    hide IsTarget, TargetNamespace, OwnedBy, Stamped, DockerAuth, DockerType, PullsWith, PullNames;
    IsTargetExactly(ns, e, spec);
    MentionsExactly(spec, name);
    if from in s.objects {
      DockerTypeExactly(TypeOf(s.objects[from].body));
    }
    if to in s.objects {
      StampedExactly(s.objects[to].labels, e);
    }
  }

  lemma PossibleExactly(s: Store, e: EnvKey, spec: EnvSpec, ns: string)
    requires IsTarget(ns, e, spec) && e.name != "" && e.ns != ""
    ensures Possible(s, e, spec, ns) <==> Succeeds(s, Env(e, spec))
  {
    var env := Env(e, spec);
    hide IsTarget, TargetNamespace, OwnedBy, Stamped, Mentions, ReferencedNames, CopyPossible, SecretAllowed;
    IsTargetExactly(ns, e, spec);
    forall n ensures Mentions(spec, n) <==> n in ReferencedNames(spec) {
      MentionsExactly(spec, n);
    }
    forall n ensures CopyPossible(s, e, spec, ns, n) <==> SecretAllowed(s, env, n, NsOpen(s, env)) {
      CopyExactly(s, e, spec, ns, n);
    }
    if NsKey(ns) in s.objects {
      StampedExactly(s.objects[NsKey(ns)].labels, e);
    }
    ServicesExactly(s, e, spec, ns);
    hide ThereOrOpen, ServiceAllowed;
  }

  lemma ServicesExactly(s: Store, e: EnvKey, spec: EnvSpec, ns: string)
    requires IsTarget(ns, e, spec)
    ensures (forall svc :: svc in spec.services ==>
               && ThereOrOpen(s, ns, Key(Deployment, ns, svc.name))
               && ThereOrOpen(s, ns, Key(Kind.Service, ns, svc.name))) <==>
            (forall i :: 0 <= i < |spec.services| ==> ServiceAllowed(s, Env(e, spec), spec.services[i].name))
  {
    IsTargetExactly(ns, e, spec);
    hide IsTarget, TargetNamespace;
    forall i | 0 <= i < |spec.services|
      ensures ServiceAllowed(s, Env(e, spec), spec.services[i].name) <==>
              ThereOrOpen(s, ns, Key(Deployment, ns, spec.services[i].name)) &&
                ThereOrOpen(s, ns, Key(Kind.Service, ns, spec.services[i].name))
    {
    }
    hide ThereOrOpen, ServiceAllowed;
  }

  // A pass whose requests all arrive reports no error exactly when there is no
  // such record, or it is being deleted, or all that is asked for is possible.
  lemma SuccessExactly(s: Store, e: EnvKey, ns: string)
    requires e in s.records ==> e.name != "" && e.ns != "" && IsTarget(ns, e, s.records[e].spec)
    ensures WillSucceed(s, e) <==>
            e !in s.records || s.records[e].deleting || Possible(s, e, s.records[e].spec, ns)
  {
    hide Possible, Succeeds;
    if e in s.records {
      PossibleExactly(s, e, s.records[e].spec, ns);
    }
  }

  // ----- a deletion -----

  ghost predicate OnlyMarked(s: Store, t: Store, k: Key)
    requires k in s.objects
  {
    && t.records == s.records && t.fill == s.fill
    && (forall j :: j != k ==> ObjAt(t, j) == ObjAt(s, j))
    && k in t.objects && t.objects[k].terminating
    && t.objects[k].(terminating := false, version := 0) == s.objects[k].(terminating := false, version := 0)
    && (s.objects[k].terminating ==> t == s)
  }

  ghost predicate OnlyReleased(s: Store, t: Store, e: EnvKey)
    requires e in s.records
  {
    && t.objects == s.objects && t.fill == s.fill
    && (forall f :: f != e ==> RecordAt(t, f) == RecordAt(s, f))
    && (if s.records[e].finalizers == {Ours} then e !in t.records
        else
          && e in t.records && Ours !in t.records[e].finalizers
          && t.records[e].finalizers + {Ours} == s.records[e].finalizers
          && t.records[e].(finalizers := {}, version := 0) == s.records[e].(finalizers := {}, version := 0))
  }

  // What a delete pass comes to: a namespace of the environment's own is
  // marked and nothing else done; only where there is none is the record let
  // go; and without the finalizer nothing happens at all.
  lemma DeletionExactly(s: Store, e: EnvKey, ns: string)
    requires e in s.records && s.records[e].deleting
    requires e.name != "" && e.ns != "" && IsTarget(ns, e, s.records[e].spec)
    ensures var t := DeleteResult(s, e);
            var owned := NsKey(ns) in s.objects && Stamped(s.objects[NsKey(ns)].labels, e);
            && (Ours !in s.records[e].finalizers ==> t == s)
            && (Ours in s.records[e].finalizers && owned ==> OnlyMarked(s, t, NsKey(ns)))
            && (Ours in s.records[e].finalizers && !owned ==> OnlyReleased(s, t, e))
  {
    hide IsTarget, TargetNamespace, OwnedBy, Stamped;
    IsTargetExactly(ns, e, s.records[e].spec);
    if NsKey(ns) in s.objects {
      StampedExactly(s.objects[NsKey(ns)].labels, e);
    }
    if Ours in s.records[e].finalizers && s.records[e].finalizers != {Ours} {
      assert s.records[e].finalizers == (s.records[e].finalizers - {Ours}) + {Ours};
    }
  }
}
