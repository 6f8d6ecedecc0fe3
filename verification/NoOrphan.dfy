// controller.go:125-134, 209-219 and 697-732: a namespace never outlives the
// record that accounts for it.
module NoOrphan {
  import opened Text
  import opened Types
  import opened Server
  import opened Client
  import opened Passes
  import opened Protocol
  import opened StatusRules

  // The record is there, with the finalizer, and this is its namespace.
  predicate Anchored(s: Store, e: EnvKey, name: string) {
    && e in s.records && Ours in s.records[e].finalizers
    && TargetNamespace(EnvOf(e, s.records[e])) == name
  }

  // Every namespace that is labelled as an environment's is accounted for.
  ghost predicate NoOrphans(s: Store) {
    forall name :: NsKey(name) in s.objects && ClaimedBy(s.objects[NsKey(name)].labels).Some? ==>
                     Anchored(s, ClaimedBy(s.objects[NsKey(name)].labels).value, name)
  }

  ghost predicate Unclaimed(s: Store, e: EnvKey) {
    forall name :: NsKey(name) in s.objects ==> ClaimedBy(s.objects[NsKey(name)].labels) != Some(e)
  }

  predicate NoOwnership(delta: Labels) {
    ManagedBy !in delta && Label.Environment !in delta && OwnerNamespace !in delta
  }

  // What is true of the store wherever the worker stands. From the moment the
  // finalizer has landed until the worker itself drops it, it is there.
  ghost predicate Standing(s: Store, e: EnvKey, p: Proc) {
    p.AddFinalizer? ||
    (&& Anchored(s, e, TargetNamespace(EnvOf(e, p.read)))
     && (p.PatchNs? ==> NoOwnership(p.delta))
     && (p.DropFinalizer? ==> Unclaimed(s, e)))
  }

  ghost predicate Safe(sys: System) {
    && NoOrphans(sys.store)
    && (forall e :: e in sys.store.records ==> e.name != "" && e.ns != "")
    && (forall e :: e in sys.procs ==> Standing(sys.store, e, sys.procs[e]))
  }

  // ----- what keeps it -----

  // Nothing any environment but e relies on is taken away, and no claim is
  // made for any but e.
  ghost predicate Harmless(s: Store, t: Store, e: Option<EnvKey>) {
    && (forall f, name :: Some(f) != e && Anchored(s, f, name) ==> Anchored(t, f, name))
    && (forall f :: f in t.records ==> f in s.records || (f.name != "" && f.ns != ""))
    && (forall name :: NsKey(name) in t.objects && ClaimedBy(t.objects[NsKey(name)].labels).Some? ==>
          || (NsKey(name) in s.objects &&
              ClaimedBy(s.objects[NsKey(name)].labels) == ClaimedBy(t.objects[NsKey(name)].labels))
          || ClaimedBy(t.objects[NsKey(name)].labels) == e)
  }

  lemma OthersHarmless(s: Store, a: Action)
    ensures Harmless(s, Others(s, a), None)
  {
    hide EnvLabels;
  }

  lemma StandingKept(s: Store, t: Store, e: Option<EnvKey>, f: EnvKey, p: Proc)
    requires Harmless(s, t, e) && Some(f) != e && Standing(s, f, p)
    ensures Standing(t, f, p)
  {
    hide ClaimedBy, TargetNamespace;
  }

  lemma OthersSafe(sys: System, a: Action)
    requires Safe(sys)
    ensures NoOrphans(Others(sys.store, a))
    ensures forall e :: e in Others(sys.store, a).records ==> e.name != "" && e.ns != ""
    ensures forall e :: e in sys.procs ==> Standing(Others(sys.store, a), e, sys.procs[e])
  {
    var t := Others(sys.store, a);
    OthersHarmless(sys.store, a);
    hide Others, ClaimedBy, Anchored;
    forall e | e in sys.procs ensures Standing(t, e, sys.procs[e]) {
      StandingKept(sys.store, t, None, e, sys.procs[e]);
    }
  }

  // ----- the worker's turn -----

  ghost predicate Good(s: Store, turn: Turn, e: EnvKey) {
    && Harmless(s, turn.store, Some(e))
    && NoOrphans(turn.store)
    && (turn.next.Goto? ==> Standing(turn.store, e, turn.next.proc))
  }

  ghost predicate NsSame(s: Store, t: Store) {
    forall name :: ObjAt(t, NsKey(name)) == ObjAt(s, NsKey(name))
  }

  lemma Unchanged(s: Store, t: Store, e: EnvKey)
    requires NoOrphans(s) && t.records == s.records && NsSame(s, t)
    requires forall f :: f in s.records ==> f.name != "" && f.ns != ""
    ensures Harmless(s, t, Some(e)) && NoOrphans(t)
    ensures forall name :: Anchored(t, e, name) <==> Anchored(s, e, name)
  {
    forall name | NsKey(name) in t.objects ensures ObjAt(t, NsKey(name)) == ObjAt(s, NsKey(name)) {
    }
    hide ClaimedBy;
  }

  // Only e's record changes, and stays e's anchor.
  lemma RecordTurn(s: Store, t: Store, e: EnvKey)
    requires NoOrphans(s) && t.objects == s.objects && OnlyRecord(s, t, e) && (e in t.records ==> e in s.records)
    requires forall name :: Anchored(s, e, name) ==> Anchored(t, e, name)
    ensures Harmless(s, t, Some(e)) && NoOrphans(t)
  {
    hide ClaimedBy;
    forall f, name | f != e && Anchored(s, f, name) ensures Anchored(t, f, name) {
      assert RecordAt(t, f) == RecordAt(s, f);
    }
    forall f | f in t.records && f != e ensures f in s.records {
      assert RecordAt(t, f) == RecordAt(s, f);
    }
  }

  lemma AddFinalizerGood(s: Store, e: EnvKey, p: Proc, fate: Fault, choice: Choice, now: nat)
    requires NoOrphans(s) && p.AddFinalizer?
    ensures Good(s, Work(s, e, p, fate, choice, now), e)
  {
    hide ClaimedBy;
    RecordTurn(s, Work(s, e, p, fate, choice, now).store, e);
  }

  lemma WriteStatusGood(s: Store, e: EnvKey, p: Proc, fate: Fault, choice: Choice, now: nat)
    requires NoOrphans(s) && p.WriteStatus?
    ensures Good(s, Work(s, e, p, fate, choice, now), e)
  {
    hide ClaimedBy;
    RecordTurn(s, Work(s, e, p, fate, choice, now).store, e);
  }

  // The existing labels differ from the environment's at most in the owner.
  lemma PatchIsModest(env: Env, existing: Labels)
    requires OwnedBy(existing, env.key) && env.key.name != "" && env.key.ns != ""
    ensures NoOwnership(LabelPatch(env, existing))
  {
  }

  lemma GetNsGood(s: Store, e: EnvKey, p: Proc, fate: Fault, choice: Choice, now: nat)
    requires NoOrphans(s) && (p.GetNs? || p.FindNs?) && Standing(s, e, p)
    requires forall f :: f in s.records ==> f.name != "" && f.ns != ""
    ensures Good(s, Work(s, e, p, fate, choice, now), e)
  {
    var env := EnvOf(e, p.read);
    var ns := NsKey(TargetNamespace(env));
    Unchanged(s, s, e);
    if p.GetNs? && ns in s.objects && OwnedBy(s.objects[ns].labels, e) {
      PatchIsModest(env, s.objects[ns].labels);
    }
    hide LabelPatch, EnvLabels, FailedStatus;
    if p.FindNs? && (ns !in s.objects || !OwnedBy(s.objects[ns].labels, e)) {
      forall name | NsKey(name) in s.objects ensures ClaimedBy(s.objects[NsKey(name)].labels) != Some(e) {
        ClaimIsOwnership(s.objects[NsKey(name)].labels, e);
      }
    }
  }

  lemma CreateNsGood(s: Store, e: EnvKey, p: Proc, fate: Fault, choice: Choice, now: nat)
    requires NoOrphans(s) && p.CreateNs? && Standing(s, e, p)
    requires forall f :: f in s.records ==> f.name != "" && f.ns != ""
    ensures Good(s, Work(s, e, p, fate, choice, now), e)
  {
    var env := EnvOf(e, p.read);
    var t := Work(s, e, p, fate, choice, now).store;
    StampedIsOwned(env, "", map[]);
    ClaimIsOwnership(EnvLabels(env, ""), e);
    hide EnvLabels, FailedStatus, ClaimedBy, OwnedBy;
    if NsKey(TargetNamespace(env)) in s.objects {
      Unchanged(s, t, e);
    }
  }

  lemma PatchNsGood(s: Store, e: EnvKey, p: Proc, fate: Fault, choice: Choice, now: nat)
    requires NoOrphans(s) && p.PatchNs? && Standing(s, e, p)
    requires forall f :: f in s.records ==> f.name != "" && f.ns != ""
    ensures Good(s, Work(s, e, p, fate, choice, now), e)
  {
    hide FailedStatus;
    var t := Work(s, e, p, fate, choice, now).store;
    forall name | NsKey(name) in t.objects
      ensures NsKey(name) in s.objects
      ensures ClaimedBy(t.objects[NsKey(name)].labels) == ClaimedBy(s.objects[NsKey(name)].labels)
    {
    }
    hide ClaimedBy;
  }

  lemma InNsGood(s: Store, e: EnvKey, p: Proc, fate: Fault, choice: Choice, now: nat)
    requires NoOrphans(s) && p.InNs? && Standing(s, e, p)
    requires forall f :: f in s.records ==> f.name != "" && f.ns != ""
    ensures Good(s, Work(s, e, p, fate, choice, now), e)
  {
    hide FailedStatus, ProvisionedStatus, OwnedBy, ClaimedBy;
    Unchanged(s, Work(s, e, p, fate, choice, now).store, e);
  }

  lemma DeleteNsGood(s: Store, e: EnvKey, p: Proc, fate: Fault, choice: Choice, now: nat)
    requires NoOrphans(s) && p.DeleteNs? && Standing(s, e, p)
    requires forall f :: f in s.records ==> f.name != "" && f.ns != ""
    ensures Good(s, Work(s, e, p, fate, choice, now), e)
  {
    hide ClaimedBy;
  }

  // The finalizer goes only when nothing is claimed for e.
  lemma DropFinalizerGood(s: Store, e: EnvKey, p: Proc, fate: Fault, choice: Choice, now: nat)
    requires NoOrphans(s) && p.DropFinalizer? && Standing(s, e, p)
    ensures Good(s, Work(s, e, p, fate, choice, now), e)
  {
    hide ClaimedBy;
    var t := Work(s, e, p, fate, choice, now).store;
    assert OnlyRecord(s, t, e) && t.objects == s.objects;
    forall f, name | f != e && Anchored(s, f, name) ensures Anchored(t, f, name) {
      assert RecordAt(t, f) == RecordAt(s, f);
    }
    forall f | f in t.records && f != e ensures f in s.records {
      assert RecordAt(t, f) == RecordAt(s, f);
    }
  }

  lemma WorkGood(s: Store, e: EnvKey, p: Proc, fate: Fault, choice: Choice, now: nat)
    requires NoOrphans(s) && Standing(s, e, p)
    requires forall f :: f in s.records ==> f.name != "" && f.ns != ""
    ensures Good(s, Work(s, e, p, fate, choice, now), e)
  {
    hide Work, Good, NoOrphans, Standing;
    match p
    case AddFinalizer(_) => AddFinalizerGood(s, e, p, fate, choice, now);
    case GetNs(_) => GetNsGood(s, e, p, fate, choice, now);
    case CreateNs(_) => CreateNsGood(s, e, p, fate, choice, now);
    case PatchNs(_, _) => PatchNsGood(s, e, p, fate, choice, now);
    case InNs(_, _, _) => InNsGood(s, e, p, fate, choice, now);
    case WriteStatus(_, _, _) => WriteStatusGood(s, e, p, fate, choice, now);
    case FindNs(_) => GetNsGood(s, e, p, fate, choice, now);
    case DeleteNs(_) => DeleteNsGood(s, e, p, fate, choice, now);
    case DropFinalizer(_) => DropFinalizerGood(s, e, p, fate, choice, now);
  }

  lemma StartGood(s: Store, e: EnvKey, fate: Fault)
    requires NoOrphans(s) && forall f :: f in s.records ==> f.name != "" && f.ns != ""
    ensures Good(s, Turn(s, Start(s, e, fate)), e)
  {
    Unchanged(s, s, e);
    hide ClaimedBy;
  }

  lemma AfterSafe(sys: System, e: EnvKey, queue: set<EnvKey>, turn: Turn)
    requires Safe(sys) && Good(sys.store, turn, e)
    ensures Safe(After(sys, e, queue, turn))
  {
    var after := After(sys, e, queue, turn);
    hide Wakes, NoOrphans, ClaimedBy, Anchored;
    forall f | f in after.procs ensures Standing(after.store, f, after.procs[f]) {
      if f != e {
        StandingKept(sys.store, turn.store, Some(e), f, sys.procs[f]);
      }
    }
  }

  // ----- every run -----

  lemma StepSafe(sys: System, a: Action)
    requires Safe(sys)
    ensures Safe(Advanced(sys, a))
  {
    var s := sys.store;
    match a
    case Take(e, fate) =>
      StartGood(s, e, fate);
      hide Good, Start, After;
      if e in sys.queue && e !in sys.procs {
        AfterSafe(sys, e, sys.queue - {e}, Turn(s, Start(s, e, fate)));
      }
    case Advance(e, fate, choice, now) =>
      hide Good, Work, After;
      if e in sys.procs {
        WorkGood(s, e, sys.procs[e], fate, choice, now);
        AfterSafe(sys, e, sys.queue, Work(s, e, sys.procs[e], fate, choice, now));
      }
    case Crash =>
    case Fire(_) =>
    case _ =>
      OthersSafe(sys, a);
      hide Others, NoOrphans, Standing, Wakes;
  }

  lemma {:induction false} RunSafe(sys: System, actions: seq<Action>)
    requires Safe(sys)
    ensures Safe(Run(sys, actions))
    decreases |actions|
  {
    if actions != [] {
      RunSafe(sys, actions[..|actions| - 1]);
      StepSafe(Run(sys, actions[..|actions| - 1]), actions[|actions| - 1]);
      hide Safe, Advanced;
    }
  }

  lemma InitialSafe(sys: System)
    requires Initial(sys)
    ensures Safe(sys)
  {
  }

  lemma ReachableSafe(sys: System)
    requires Reachable(sys)
    ensures Safe(sys)
  {
    var initial, actions :| Initial(initial) && Run(initial, actions) == sys;
    InitialSafe(initial);
    RunSafe(initial, actions);
    hide Safe, Run, Initial;
  }

  // In every reachable state - every request a step of its own, any of them
  // lost, the controller crashing anywhere - a namespace that carries an
  // environment's labels has its record stored with the finalizer on.
  lemma NoOrphanEver(sys: System, name: string, e: EnvKey)
    requires Reachable(sys)
    requires NsKey(name) in sys.store.objects && OwnedBy(sys.store.objects[NsKey(name)].labels, e)
    ensures Anchored(sys.store, e, name)
  {
    ReachableSafe(sys);
    ClaimIsOwnership(sys.store.objects[NsKey(name)].labels, e);
    hide Reachable, ClaimedBy, Standing;
  }

  // So an environment never has two namespaces.
  lemma OneNamespace(sys: System, a: string, b: string, e: EnvKey)
    requires Reachable(sys)
    requires NsKey(a) in sys.store.objects && OwnedBy(sys.store.objects[NsKey(a)].labels, e)
    requires NsKey(b) in sys.store.objects && OwnedBy(sys.store.objects[NsKey(b)].labels, e)
    ensures a == b
  {
    NoOrphanEver(sys, a, e);
    NoOrphanEver(sys, b, e);
    hide Reachable, OwnedBy;
  }
}
