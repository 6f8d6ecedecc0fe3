// controller.go:136-164, 708-719, 1070-1080, 1216-1229 and mapping.go:40-50:
// no environment that needs attention is ever forgotten.
module WakeUps {
  import opened Types
  import opened Server
  import opened Goals
  import opened Client
  import opened Steps
  import opened Passes
  import opened StatusRules
  import opened Protocol
  import opened NoOrphan
  import opened Plain
  import opened Readiness

  // ----- at rest -----

  // The service's Deployment is the environment's and has the replicas asked
  // for.
  predicate ReadyHeld(s: Store, env: Env, svc: ServiceSpec) {
    DeploymentHeld(s, env, svc) && ReadyNow(s, env, svc)
  }

  predicate AllReady(s: Store, env: Env, n: nat)
    requires n <= |env.spec.services|
  {
    forall i :: 0 <= i < n ==> ReadyHeld(s, env, env.spec.services[i])
  }

  // Nothing is left for the controller to do: the record says Ready for what
  // is now its spec, and so it is; or it is being deleted and released, or its
  // namespace is on its way out.
  predicate AtRest(s: Store, e: EnvKey)
    requires e in s.records
  {
    var r := s.records[e];
    var env := EnvOf(e, r);
    if r.deleting then
      || Ours !in r.finalizers
      || (NsOwned(s, env) && s.objects[NsKey(TargetNamespace(env))].terminating)
    else
      && r.status.phase == Ready && r.status.generation == r.generation
      && AllReady(s, env, |env.spec.services|)
  }

  // ----- workers -----

  // The record as read is the record as stored.
  predicate Current(s: Store, e: EnvKey, p: Proc) {
    e in s.records && s.records[e] == p.read
  }

  // What a worker knows that stays true unless its key is enqueued.
  predicate Knows(s: Store, e: EnvKey, p: Proc) {
    && Current(s, e, p)
    && (p.read.deleting <==> p.FindNs? || p.DeleteNs? || p.DropFinalizer?)
    && match p
       case InNs(read, seen, ready) =>
         seen <= |read.spec.services| && ready <= seen && (ready == seen ==> AllReady(s, EnvOf(e, read), seen))
       case WriteStatus(read, status, again) =>
         again || (status.generation == read.generation && AllReady(s, EnvOf(e, read), |read.spec.services|))
       case DeleteNs(read) => NsOwned(s, EnvOf(e, read))
       case _ => true
  }

  // What is always true of a worker.
  predicate Sensible(p: Proc) {
    match p
    case InNs(read, seen, ready) => seen <= |read.spec.services| && ready <= seen
    case WriteStatus(read, status, again) => !again ==> status.phase == Ready
    case _ => true
  }

  ghost predicate Awake(sys: System) {
    && (forall e :: e in sys.store.records ==>
          e in sys.queue || e in sys.timers || e in sys.procs || AtRest(sys.store, e))
    && (forall e :: e in sys.procs ==>
          e.name != "" && e.ns != "" && Sensible(sys.procs[e]) && (e in sys.queue || Knows(sys.store, e, sys.procs[e])))
  }

  // ----- what does not wake an environment does not concern it -----

  // e's record, its namespaces and its Deployments are as they were.
  ghost predicate Quiet(s: Store, t: Store, e: EnvKey) {
    && RecordAt(t, e) == RecordAt(s, e)
    && forall k :: k in s.objects && Watched(k.kind) && OwnedBy(s.objects[k].labels, e) ==> ObjAt(t, k) == ObjAt(s, k)
  }

  lemma ChangeWakes(s: Store, t: Store, k: Key, e: EnvKey)
    requires k in s.objects && Watched(k.kind) && ObjAt(t, k) != ObjAt(s, k) && e in Mapped(s, k)
    ensures e in Wakes(s, t)
  {
    hide Mapped;
    assert k in s.objects.Keys + t.objects.Keys && e in Mapped(s, k) + Mapped(t, k);
  }

  lemma UnwokenIsQuiet(s: Store, t: Store, e: EnvKey)
    requires e !in Wakes(s, t) && e.name != "" && e.ns != ""
    ensures Quiet(s, t, e)
  {
    forall k | k in s.objects && Watched(k.kind) && OwnedBy(s.objects[k].labels, e) ensures ObjAt(t, k) == ObjAt(s, k) {
      MappingInvertsLabels(s.objects[k].labels, e);
      assert [e][0] == e;
      assert e in Mapped(s, k);
      if ObjAt(t, k) != ObjAt(s, k) {
        ChangeWakes(s, t, k, e);
      }
    }
  }

  lemma QuietReady(s: Store, t: Store, e: EnvKey, env: Env, n: nat)
    requires Quiet(s, t, e) && env.key == e && n <= |env.spec.services| && AllReady(s, env, n)
    ensures AllReady(t, env, n)
  {
    hide OwnedBy;
    forall i | 0 <= i < n ensures ReadyHeld(t, env, env.spec.services[i]) {
      var k := DeployKey(env, env.spec.services[i].name);
      assert ReadyHeld(s, env, env.spec.services[i]);
      assert ObjAt(t, k) == ObjAt(s, k);
    }
  }

  lemma QuietOwned(s: Store, t: Store, e: EnvKey, env: Env)
    requires Quiet(s, t, e) && env.key == e && NsOwned(s, env)
    ensures NsOwned(t, env) && ObjAt(t, NsKey(TargetNamespace(env))) == ObjAt(s, NsKey(TargetNamespace(env)))
  {
    hide OwnedBy;
  }

  lemma QuietRest(s: Store, t: Store, e: EnvKey)
    requires Quiet(s, t, e) && e in s.records && AtRest(s, e)
    ensures e in t.records && AtRest(t, e)
  {
    var env := EnvOf(e, s.records[e]);
    assert RecordAt(t, e) == RecordAt(s, e);
    if !s.records[e].deleting {
      QuietReady(s, t, e, env, |env.spec.services|);
    } else if Ours in s.records[e].finalizers {
      QuietOwned(s, t, e, env);
    }
    hide OwnedBy, AllReady;
  }

  lemma QuietKnows(s: Store, t: Store, e: EnvKey, p: Proc)
    requires Quiet(s, t, e) && Knows(s, e, p)
    ensures Knows(t, e, p)
  {
    var env := EnvOf(e, p.read);
    assert RecordAt(t, e) == RecordAt(s, e);
    match p
    case InNs(read, seen, ready) =>
      if ready == seen {
        QuietReady(s, t, e, env, seen);
      }
    case WriteStatus(read, status, again) =>
      if !again {
        QuietReady(s, t, e, env, |read.spec.services|);
      }
    case DeleteNs(read) => QuietOwned(s, t, e, env);
    case _ =>
  }

  // ----- the worker's turn -----

  // The pass goes on knowing what it knew, or is over with nothing left to do,
  // or comes back by itself - unless what it did wakes its own environment.
  ghost predicate Attentive(s: Store, e: EnvKey, turn: Turn) {
    && (turn.next.Goto? ==> Sensible(turn.next.proc))
    && (e !in Wakes(s, turn.store) ==>
          match turn.next
          case Goto(p) => Knows(turn.store, e, p)
          case Done => e in turn.store.records ==> AtRest(turn.store, e)
          case Retry => true)
  }

  // The same for a worker whose key is already in the queue.
  ghost predicate Proper(turn: Turn) {
    turn.next.Goto? ==> Sensible(turn.next.proc)
  }

  lemma WorkProper(s: Store, e: EnvKey, p: Proc, fate: Fault, choice: Choice, now: nat)
    requires Sensible(p)
    ensures Proper(Work(s, e, p, fate, choice, now))
  {
    hide LabelPatch, FailedStatus, EnvLabels, Upsert, AvailableNow, ProgressingNow, DegradedNow;
  }

  lemma FinalizerTurn(s: Store, e: EnvKey, p: Proc, fate: Fault, choice: Choice, now: nat)
    requires Knows(s, e, p) && Sensible(p) && (p.AddFinalizer? || p.DropFinalizer?)
    ensures Attentive(s, e, Work(s, e, p, fate, choice, now))
  {
  }

  lemma NsTurn(s: Store, e: EnvKey, p: Proc, fate: Fault, choice: Choice, now: nat)
    requires Knows(s, e, p) && Sensible(p) && e.name != "" && e.ns != ""
    requires p.GetNs? || p.CreateNs? || p.PatchNs? || p.FindNs?
    ensures Attentive(s, e, Work(s, e, p, fate, choice, now))
  {
    hide LabelPatch, FailedStatus, EnvLabels, OwnedBy;
  }

  lemma DeleteNsTurn(s: Store, e: EnvKey, p: Proc, fate: Fault, choice: Choice, now: nat)
    requires Knows(s, e, p) && Sensible(p) && p.DeleteNs?
    ensures Attentive(s, e, Work(s, e, p, fate, choice, now))
  {
    hide OwnedBy;
  }

  lemma InNsWorks(s: Store, e: EnvKey, p: Proc, fate: Fault, choice: Choice, now: nat)
    requires Knows(s, e, p) && Sensible(p) && p.InNs? && e.name != "" && e.ns != ""
    ensures Attentive(s, e, Work(s, e, p, fate, choice, now))
  {
    var turn := Work(s, e, p, fate, choice, now);
    WorkProper(s, e, p, fate, choice, now);
    if e !in Wakes(s, turn.store) {
      UnwokenIsQuiet(s, turn.store, e);
      QuietKnows(s, turn.store, e, p);
    }
    hide FailedStatus, OwnedBy, Upsert, AvailableNow, ProgressingNow, DegradedNow, Wakes, Permitted;
  }

  lemma WriteStatusTurn(s: Store, e: EnvKey, p: Proc, fate: Fault, choice: Choice, now: nat)
    requires Knows(s, e, p) && Sensible(p) && p.WriteStatus?
    ensures Attentive(s, e, Work(s, e, p, fate, choice, now))
  {
    hide AllReady;
  }

  lemma WorkAttentive(s: Store, e: EnvKey, p: Proc, fate: Fault, choice: Choice, now: nat)
    requires Knows(s, e, p) && Sensible(p) && e.name != "" && e.ns != ""
    ensures Attentive(s, e, Work(s, e, p, fate, choice, now))
  {
    hide Work, Attentive, Knows, Sensible;
    match p
    case AddFinalizer(_) => FinalizerTurn(s, e, p, fate, choice, now);
    case DropFinalizer(_) => FinalizerTurn(s, e, p, fate, choice, now);
    case InNs(_, _, _) => InNsWorks(s, e, p, fate, choice, now);
    case WriteStatus(_, _, _) => WriteStatusTurn(s, e, p, fate, choice, now);
    case DeleteNs(_) => DeleteNsTurn(s, e, p, fate, choice, now);
    case GetNs(_) => NsTurn(s, e, p, fate, choice, now);
    case CreateNs(_) => NsTurn(s, e, p, fate, choice, now);
    case PatchNs(_, _) => NsTurn(s, e, p, fate, choice, now);
    case FindNs(_) => NsTurn(s, e, p, fate, choice, now);
  }

  lemma StartAttentive(s: Store, e: EnvKey, fate: Fault)
    ensures Attentive(s, e, Turn(s, Start(s, e, fate)))
  {
  }

  // ----- every run -----

  // Whoever is neither woken nor worked on is as well off as before.
  lemma BystanderAwake(sys: System, t: Store, f: EnvKey)
    requires Safe(sys) && Awake(sys) && f !in Wakes(sys.store, t)
    requires f in t.records && f !in sys.queue && f !in sys.timers && f !in sys.procs
    ensures AtRest(t, f)
  {
    hide NoOrphans, Standing, AtRest;
    UnwokenIsQuiet(sys.store, t, f);
    QuietRest(sys.store, t, f);
  }

  lemma OtherWorkerAwake(sys: System, t: Store, f: EnvKey)
    requires Awake(sys) && f !in Wakes(sys.store, t) && f !in sys.queue && f in sys.procs
    ensures Knows(t, f, sys.procs[f])
  {
    hide AtRest, Knows, Wakes;
    UnwokenIsQuiet(sys.store, t, f);
    QuietKnows(sys.store, t, f, sys.procs[f]);
  }

  lemma AfterAwake(sys: System, e: EnvKey, queue: set<EnvKey>, turn: Turn)
    requires Safe(sys) && Awake(sys) && Proper(turn) && e.name != "" && e.ns != ""
    requires queue == sys.queue || (queue == sys.queue - {e} && e !in sys.procs)
    requires e in queue || Attentive(sys.store, e, turn)
    ensures Awake(After(sys, e, queue, turn))
  {
    var after := After(sys, e, queue, turn);
    var t := turn.store;
    hide Wakes, AtRest, Knows, NoOrphans, Standing, Sensible;
    forall f | f in t.records && f !in after.queue && f !in after.timers && f !in after.procs ensures AtRest(t, f) {
      if f != e {
        BystanderAwake(sys, t, f);
      }
    }
    forall f | f in after.procs
      ensures f.name != "" && f.ns != "" && Sensible(after.procs[f])
      ensures f in after.queue || Knows(t, f, after.procs[f])
    {
      if f != e && f !in after.queue {
        OtherWorkerAwake(sys, t, f);
      }
    }
  }

  lemma TakeAwake(sys: System, e: EnvKey, fate: Fault)
    requires Safe(sys) && Awake(sys) && e in sys.queue && e !in sys.procs
    ensures Awake(Advanced(sys, Take(e, fate)))
  {
    var turn := Turn(sys.store, Start(sys.store, e, fate));
    StartAttentive(sys.store, e, fate);
    if e in sys.store.records {
      hide Start, Wakes, After, Awake;
      AfterAwake(sys, e, sys.queue - {e}, turn);
    } else {
      TakeMissing(sys, e, fate);
    }
  }

  // A key without a record needs nothing.
  lemma TakeMissing(sys: System, e: EnvKey, fate: Fault)
    requires Safe(sys) && Awake(sys) && e in sys.queue && e !in sys.procs && e !in sys.store.records
    ensures Awake(Advanced(sys, Take(e, fate)))
  {
    hide Wakes, AtRest, Knows, NoOrphans, Standing, Sensible;
    NothingWakes(sys.store);
  }

  lemma NothingWakes(s: Store)
    ensures Wakes(s, s) == {}
  {
  }

  lemma AdvanceAwake(sys: System, e: EnvKey, fate: Fault, choice: Choice, now: nat)
    requires Safe(sys) && Awake(sys) && e in sys.procs
    ensures Awake(Advanced(sys, Advance(e, fate, choice, now)))
  {
    var s, p := sys.store, sys.procs[e];
    WorkProper(s, e, p, fate, choice, now);
    hide Wakes, After, Work, Knows, Sensible, AtRest, Standing, NoOrphans;
    if e !in sys.queue {
      WorkAttentive(s, e, p, fate, choice, now);
    }
    hide Attentive, Proper;
    AfterAwake(sys, e, sys.queue, Work(s, e, p, fate, choice, now));
  }

  lemma OthersAwake(sys: System, t: Store)
    requires Safe(sys) && Awake(sys)
    ensures Awake(System(t, sys.queue + Wakes(sys.store, t), sys.timers, sys.procs))
  {
    var after := System(t, sys.queue + Wakes(sys.store, t), sys.timers, sys.procs);
    hide Wakes, AtRest, Knows, NoOrphans, Standing, Sensible;
    forall f | f in t.records && f !in after.queue && f !in after.timers && f !in after.procs ensures AtRest(t, f) {
      BystanderAwake(sys, t, f);
    }
    forall f | f in after.procs && f !in after.queue ensures Knows(t, f, after.procs[f]) {
      OtherWorkerAwake(sys, t, f);
    }
  }

  lemma StepAwake(sys: System, a: Action)
    requires Safe(sys) && Awake(sys)
    ensures Awake(Advanced(sys, a))
  {
    match a
    case Take(e, fate) =>
      if e in sys.queue && e !in sys.procs {
        hide Safe, Awake;
        TakeAwake(sys, e, fate);
      }
    case Advance(e, fate, choice, now) =>
      if e in sys.procs {
        hide Safe, Awake;
        AdvanceAwake(sys, e, fate, choice, now);
      }
    case Crash =>
    case Fire(_) =>
    case _ =>
      hide Safe, Awake, Others, Wakes;
      OthersAwake(sys, Others(sys.store, a));
  }

  lemma {:induction false} RunAwake(sys: System, actions: seq<Action>)
    requires Safe(sys) && Awake(sys)
    ensures Safe(Run(sys, actions)) && Awake(Run(sys, actions))
    decreases |actions|
  {
    if actions != [] {
      var before := Run(sys, actions[..|actions| - 1]);
      RunAwake(sys, actions[..|actions| - 1]);
      StepSafe(before, actions[|actions| - 1]);
      StepAwake(before, actions[|actions| - 1]);
      hide Safe, Awake, Advanced;
    }
  }

  lemma ReachableAwake(sys: System)
    requires Reachable(sys)
    ensures Safe(sys) && Awake(sys)
  {
    var initial, actions :| Initial(initial) && Run(initial, actions) == sys;
    InitialSafe(initial);
    InitialAwake(initial);
    RunAwake(initial, actions);
    hide Safe, Awake, Run, Initial;
  }

  lemma InitialAwake(sys: System)
    requires Initial(sys)
    ensures Awake(sys)
  {
  }

  // What is at rest, told by what is stored: released, or with the namespace
  // marked; or Ready, for the spec as it is, with every Deployment the
  // environment's own and serving.
  ghost predicate Settled(s: Store, e: EnvKey)
    requires e in s.records
  {
    var r := s.records[e];
    if r.deleting then
      || Ours !in r.finalizers
      || (exists ns :: IsTarget(ns, e, r.spec) && Marked(s, e, ns))
    else
      && r.status.phase == Ready && r.status.generation == r.generation
      && forall ns, svc :: IsTarget(ns, e, r.spec) && svc in r.spec.services ==> OwnServing(s, e, ns, svc)
  }

  predicate Marked(s: Store, e: EnvKey, ns: string) {
    NsKey(ns) in s.objects && s.objects[NsKey(ns)].terminating && Stamped(s.objects[NsKey(ns)].labels, e)
  }

  predicate OwnServing(s: Store, e: EnvKey, ns: string, svc: ServiceSpec) {
    Serving(s, ns, svc) && Stamped(s.objects[Key(Deployment, ns, svc.name)].labels, e)
  }

  lemma RestIsSettled(s: Store, e: EnvKey)
    requires e in s.records && AtRest(s, e) && e.name != "" && e.ns != ""
    ensures Settled(s, e)
  {
    var r := s.records[e];
    var env := EnvOf(e, r);
    var target := TargetNamespace(env);
    hide OwnedBy, Stamped, IsTarget, TargetNamespace, Serving, ReadyNow;
    IsTargetExactly(target, e, r.spec);
    if r.deleting {
      if Ours in r.finalizers {
        StampedExactly(s.objects[NsKey(target)].labels, e);
        assert Marked(s, e, target);
      }
    } else {
      forall ns, svc | IsTarget(ns, e, r.spec) && svc in r.spec.services ensures OwnServing(s, e, ns, svc) {
        var i :| 0 <= i < |r.spec.services| && r.spec.services[i] == svc;
        assert ReadyHeld(s, env, r.spec.services[i]);
        ServingExactly(s, e, r.spec, svc, ns);
        IsTargetExactly(ns, e, r.spec);
        StampedExactly(s.objects[DeployKey(env, svc.name)].labels, e);
      }
    }
  }

  // In every reachable state every record is enqueued, waiting for a timer, in
  // a worker's hands, or settled.
  lemma NoLostWakeUp(sys: System, e: EnvKey)
    requires Reachable(sys) && e in sys.store.records
    ensures e in sys.queue || e in sys.timers || e in sys.procs || Settled(sys.store, e)
  {
    ReachableAwake(sys);
    hide Reachable, NoOrphans, Standing, AtRest, Knows, Sensible, Settled;
    if AtRest(sys.store, e) {
      RestIsSettled(sys.store, e);
    }
  }

  // A controller with nothing to do has nothing to do.
  lemma IdleMeansDone(sys: System, e: EnvKey, ns: string)
    requires Reachable(sys) && sys.queue == {} && sys.timers == {} && sys.procs == map[]
    requires e in sys.store.records && IsTarget(ns, e, sys.store.records[e].spec)
    ensures var r := sys.store.records[e];
            && (!r.deleting ==>
                  && r.status.phase == Ready && r.status.generation == r.generation
                  && forall svc :: svc in r.spec.services ==>
                       var k := Key(Deployment, ns, svc.name);
                       && k in sys.store.objects
                       && sys.store.objects[k].readyReplicas >= (if svc.replicas.Some? then svc.replicas.value else 1))
            && (r.deleting && Ours in r.finalizers ==>
                  NsKey(ns) in sys.store.objects && sys.store.objects[NsKey(ns)].terminating)
  {
    NoLostWakeUp(sys, e);
    IsTargetExactly(ns, e, sys.store.records[e].spec);
    hide Reachable, Stamped, TargetNamespace, IsTarget;
    forall m | IsTarget(m, e, sys.store.records[e].spec) ensures m == ns {
      IsTargetExactly(m, e, sys.store.records[e].spec);
    }
    assert Settled(sys.store, e);
    forall svc | !sys.store.records[e].deleting && svc in sys.store.records[e].spec.services
      ensures Serving(sys.store, ns, svc)
    {
      assert OwnServing(sys.store, e, ns, svc);
    }
  }

  // The swallowed conflict: when the write of a status meets a newer record,
  // the key is in the queue already.
  lemma ConflictIsCovered(sys: System, e: EnvKey)
    requires Reachable(sys) && e in sys.procs && sys.procs[e].WriteStatus?
    requires UpdateStatus(sys.store, e, sys.procs[e].read, sys.procs[e].status).outcome == Err(Conflict)
    ensures e in sys.queue
  {
    ReachableAwake(sys);
    hide Reachable, Safe, AtRest, Sensible;
  }
}
