// Passes taken as atomic keep environments apart. Atomicity says when single
// requests do.
module Isolation {
  import opened Types
  import opened Server
  import opened Goals
  import opened Steps
  import opened Passes

  // A namespace and everything in it.
  predicate Inside(k: Key, ns: string) {
    k == NsKey(ns) || (k.kind != Namespace && k.ns == ns)
  }

  lemma GoalOutside(s: Store, env: Env, k: Key)
    requires !Inside(k, TargetNamespace(env))
    ensures Goal(s, env, k) == FaceAt(s, k) && !Replacing(s, env, k)
  {
  }

  // A pass for e writes its own record, and otherwise only its target
  // namespace and what is in it - and nothing there unless that namespace is
  // e's when the pass is over.
  lemma PassKeepsToItsOwn(s: Store, t: Store, e: EnvKey)
    requires Pass(s, t, e)
    ensures forall j :: j != e ==> RecordAt(t, j) == RecordAt(s, j)
    ensures e !in s.records ==> t == s
    ensures e in s.records ==>
              var env := EnvOf(e, s.records[e]);
              && (forall k :: !Inside(k, TargetNamespace(env)) ==> ObjAt(t, k) == ObjAt(s, k))
              && (t.objects != s.objects ==> NsMine(s, env) && NsOwned(t, env))
  {
    if e in s.records && !s.records[e].deleting {
      var env := EnvOf(e, s.records[e]);
      forall k | !Inside(k, TargetNamespace(env)) ensures ObjAt(t, k) == ObjAt(s, k) {
        assert StepAt(s, t, env, k);
        GoalOutside(s, env, k);
      }
    }
  }

  // A target namespace without labels, or somebody else's, is left alone: by
  // provisioning and by deletion alike, the pass changes e's record only.
  lemma ForeignNamespaceUntouched(s: Store, t: Store, e: EnvKey)
    requires Pass(s, t, e) && e in s.records && !NsMine(s, EnvOf(e, s.records[e]))
    ensures t.objects == s.objects && OnlyRecord(s, t, e)
    ensures s.records[e].deleting ==>
              t == s || t == UpdateFinalizers(s, e, s.records[e], s.records[e].finalizers - {Ours}).store
    ensures !s.records[e].deleting ==> !WillSucceed(s, e)
  {
    hide Between, SupportFirst, Writes;
  }

  // ----- runs -----

  ghost predicate PassesBy(stores: seq<Store>, who: seq<EnvKey>) {
    |stores| == |who| + 1 && forall i :: 0 <= i < |who| ==> Pass(stores[i], stores[i + 1], who[i])
  }

  // What e has in a store: its record, and its namespace with all in it.
  ghost predicate SameHoldings(s: Store, t: Store, e: EnvKey, ns: string) {
    && RecordAt(t, e) == RecordAt(s, e)
    && forall k :: Inside(k, ns) ==> ObjAt(t, k) == ObjAt(s, k)
  }

  predicate Owns(s: Store, e: EnvKey, ns: string) {
    NsKey(ns) in s.objects && OwnedBy(s.objects[NsKey(ns)].labels, e)
  }

  lemma OtherPass(s: Store, t: Store, e: EnvKey, f: EnvKey, ns: string)
    requires Pass(s, t, f) && f != e && Owns(s, e, ns)
    ensures SameHoldings(s, t, e, ns) && Owns(t, e, ns)
  {
    PassKeepsToItsOwn(s, t, f);
    hide Pass;
    if f in s.records {
      var env := EnvOf(f, s.records[f]);
      if TargetNamespace(env) == ns && NsMine(s, env) {
        OneOwner(s.objects[NsKey(ns)].labels, e, f);
      }
      hide OwnedBy;
    }
    assert ObjAt(t, NsKey(ns)) == ObjAt(s, NsKey(ns));
  }

  // However many passes for however many other environments, whatever their
  // specs say and wherever they are cut off: what e has stays as it was.
  lemma {:induction false} OthersKeepOut(stores: seq<Store>, who: seq<EnvKey>, e: EnvKey, ns: string)
    requires PassesBy(stores, who) && e !in who && Owns(stores[0], e, ns)
    ensures SameHoldings(stores[0], stores[|who|], e, ns) && Owns(stores[|who|], e, ns)
    decreases |who|
  {
    if who != [] {
      var n := |who| - 1;
      assert PassesBy(stores[..n + 1], who[..n]);
      OthersKeepOut(stores[..n + 1], who[..n], e, ns);
      assert who[n] in who;
      OtherPass(stores[n], stores[n + 1], e, who[n], ns);
      hide Pass, Owns;
    }
  }
}
