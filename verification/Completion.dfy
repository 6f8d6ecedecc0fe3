// Taking an environment down comes to an end: of every run only finitely many
// steps take it down, and from every reachable state it can be finished.
module Completion {
  import opened Text
  import opened Types
  import opened Server
  import opened Goals
  import opened Client
  import opened Passes
  import opened StatusRules
  import opened Protocol
  import opened NoOrphan
  import opened WakeUps
  import opened Teardown

  // ----- runs without end -----

  // An endless run of anybody's steps: workers, users, outsiders, crashes.
  ghost predicate Endless(run: nat -> System, act: nat -> Action) {
    && Reachable(run(0))
    && forall n: nat :: run(n + 1) == Advanced(run(n), act(n))
  }

  // The record is gone, or released for good.
  predicate Ended(s: Store, e: EnvKey) {
    e in s.records ==> s.records[e].deleting && Ours !in s.records[e].finalizers
  }

  // The deletion of this one record: no other is created under its key.
  ghost predicate NotAnew(act: nat -> Action, e: EnvKey) {
    forall n: nat :: !(act(n).CreateRecord? && act(n).e == e)
  }

  lemma WorkEndedStays(s: Store, e: EnvKey, f: EnvKey, p: Proc, fate: Fault, choice: Choice, now: nat)
    requires Ended(s, e)
    ensures Ended(Work(s, f, p, fate, choice, now).store, e)
  {
    hide FailedStatus, ProvisionedStatus, LabelPatch, OwnedBy, Permitted, TargetNamespace, EnvLabels;
  }

  lemma OthersEndedStays(s: Store, a: Action, e: EnvKey)
    requires Ended(s, e) && !(a.CreateRecord? && a.e == e)
    ensures Ended(Others(s, a), e)
  {
    hide ClaimedBy, EnvLabels, TargetNamespace;
  }

  lemma EndedStays(sys: System, a: Action, e: EnvKey)
    requires Ended(sys.store, e) && !(a.CreateRecord? && a.e == e)
    ensures Ended(Advanced(sys, a).store, e)
  {
    match a
    case Advance(f, fate, choice, now) =>
      if f in sys.procs {
        WorkEndedStays(sys.store, e, f, sys.procs[f], fate, choice, now);
        hide Work, Wakes, Ended;
      }
    case Take(_, _) =>
      hide Start, Wakes, Ended;
    case Crash =>
    case Fire(_) =>
    case _ =>
      OthersEndedStays(sys.store, a, e);
      hide Others, Wakes, Ended;
  }

  lemma TearingOrEnded(sys: System, a: Action, e: EnvKey)
    requires Tearing(sys.store, e)
    ensures Tearing(Advanced(sys, a).store, e) || Ended(Advanced(sys, a).store, e)
  {
    match a
    case Advance(f, fate, choice, now) =>
      if f in sys.procs {
        WorkStaysDeleting(sys.store, e, f, sys.procs[f], fate, choice, now);
        hide Work, Wakes;
      }
    case Take(_, _) =>
      hide Start, Wakes;
    case Crash =>
    case Fire(_) =>
    case _ =>
      OthersKeepTearing(sys.store, a, e);
      hide Others, Wakes;
  }

  lemma WorkStaysDeleting(s: Store, e: EnvKey, f: EnvKey, p: Proc, fate: Fault, choice: Choice, now: nat)
    requires Tearing(s, e)
    ensures var t := Work(s, f, p, fate, choice, now).store; e in t.records ==> t.records[e].deleting
  {
    hide FailedStatus, ProvisionedStatus, LabelPatch, OwnedBy, Permitted, TargetNamespace, EnvLabels;
  }

  predicate NotAbove(a: Rank, b: Rank) {
    a == b || Below(a, b)
  }

  // From n to m the rank does not rise, and the state stays one the teardown
  // is about.
  lemma {:induction false} Onwards(run: nat -> System, act: nat -> Action, e: EnvKey, n: nat, m: nat)
    requires Endless(run, act) && NotAnew(act, e) && n <= m
    requires Reachable(run(n)) && (Tearing(run(n).store, e) || Ended(run(n).store, e))
    ensures Reachable(run(m)) && (Tearing(run(m).store, e) || Ended(run(m).store, e))
    ensures NotAbove(RankOf(run(m), e), RankOf(run(n), e))
    decreases m
  {
    if n < m {
      var k := m - 1;
      Onwards(run, act, e, n, k);
      ReachableOn(run(k), act(k));
      assert run(k + 1) == Advanced(run(k), act(k));
      hide Reachable, Advanced;
      if Tearing(run(k).store, e) {
        TearingOrEnded(run(k), act(k), e);
        NeverBackwards(run(k), act(k), e);
      } else {
        EndedStays(run(k), act(k), e);
      }
    }
  }

  // From n on, no more effective steps.
  ghost predicate QuietFrom(run: nat -> System, act: nat -> Action, e: EnvKey, n: nat) {
    forall m: nat :: m >= n ==> !Effective(run(m), act(m), e)
  }

  lemma SettlesFrom(run: nat -> System, act: nat -> Action, e: EnvKey, n: nat) returns (k: nat)
    requires Endless(run, act) && NotAnew(act, e)
    requires Reachable(run(n)) && (Tearing(run(n).store, e) || Ended(run(n).store, e))
    ensures k >= n && QuietFrom(run, act, e, k)
    decreases RankOf(run(n), e).unreleased, RankOf(run(n), e).inFlight, RankOf(run(n), e).phase, RankOf(run(n), e).left
  {
    if m: nat :| m >= n && Effective(run(m), act(m), e) {
      Onwards(run, act, e, n, m);
      EffectiveLowers(run(m), act(m), e);
      assert run(m + 1) == Advanced(run(m), act(m));
      Onwards(run, act, e, m, m + 1);
      hide Reachable, Effective, Advanced, RankOf, Tearing, Ended, Endless, NotAnew, QuietFrom;
      k := SettlesFrom(run, act, e, m + 1);
    } else {
      k := n;
    }
  }

  // On every endless run, whoever acts and whatever is lost, a teardown takes
  // only finitely many effective steps.
  lemma FinitelyMany(run: nat -> System, act: nat -> Action, e: EnvKey)
    requires Endless(run, act) && NotAnew(act, e) && Tearing(run(0).store, e)
    ensures exists k :: QuietFrom(run, act, e, k)
  {
    var k := SettlesFrom(run, act, e, 0);
  }

  ghost predicate EndedFrom(run: nat -> System, e: EnvKey, k: nat) {
    forall m: nat :: m >= k ==> Ended(run(m).store, e)
  }

  // Once it is released it stays so.
  lemma {:induction false} StaysEnded(run: nat -> System, act: nat -> Action, e: EnvKey, k: nat, m: nat)
    requires Endless(run, act) && NotAnew(act, e) && k <= m && Ended(run(k).store, e)
    ensures Ended(run(m).store, e)
    decreases m
  {
    if k < m {
      StaysEnded(run, act, e, k, m - 1);
      EndedStays(run(m - 1), act(m - 1), e);
      assert run(m - 1 + 1) == Advanced(run(m - 1), act(m - 1));
      hide Advanced, Ended;
    }
  }

  // ----- finishing -----

  predicate Inside(sys: System, e: EnvKey) {
    e in sys.procs && sys.procs[e].InNs?
  }

  // The steps that bring a teardown on: e's worker, losing no request, its
  // timer, and the namespace controller emptying and removing a namespace that
  // is going. A worker that is in the namespace is refused something only
  // where the namespace is not active.
  predicate TeardownStep(sys: System, a: Action, e: EnvKey) {
    match a
    case Take(f, fate) => f == e && fate == Clean
    case Advance(f, fate, choice, _) =>
      && f == e && fate == Clean
      && (choice.Fail? && Inside(sys, e) ==> !NsActive(sys.store, TargetNamespace(EnvOf(e, sys.procs[e].read))))
    case Fire(f) => f == e
    case ChangeObject(k, o) =>
      o.None? && k.kind != Namespace && NsKey(k.ns) in sys.store.objects && sys.store.objects[NsKey(k.ns)].terminating
    case RemoveNamespace(_) => true
    case _ => false
  }

  // Where the controller is, when the rank does not tell.
  function Stage(sys: System, e: EnvKey): nat
    requires e in sys.store.records
  {
    if e !in sys.procs then
      if e in sys.queue then 3 else 4
    else
      var p := sys.procs[e];
      if p.FindNs? && Current(sys.store, e, p) then 2
      else if p.DropFinalizer? && Current(sys.store, e, p) then 1
      else if p.DeleteNs? && NsPhase(sys.store, e) != 0 then 1
      else if p.FindNs? then 6
      else 5
  }

  // A step that brings the end nearer.
  ghost predicate Nearer(sys: System, after: System, e: EnvKey)
    requires e in sys.store.records
  {
    || Below(RankOf(after, e), RankOf(sys, e))
    || (RankOf(after, e) == RankOf(sys, e) && e in after.store.records && Stage(after, e) < Stage(sys, e))
  }

  // The next service, in the namespace, does not have its Deployment yet.
  predicate Unheld(s: Store, e: EnvKey, p: Proc)
    requires p.InNs? && p.seen < |p.read.spec.services|
  {
    !DeploymentHeld(s, EnvOf(e, p.read), p.read.spec.services[p.seen])
  }

  // What a pass that is in the namespace still has before it there.
  function Ahead(sys: System, e: EnvKey): nat {
    if !Inside(sys, e) then 0
    else
      var p := sys.procs[e];
      var services := |p.read.spec.services|;
      if p.seen >= services then 0
      else 2 * (services - p.seen) + if Unheld(sys.store, e, p) then 1 else 0
  }

  // And a step that brings it nearer, or the end of a pass that is in the
  // namespace.
  ghost predicate Closer(sys: System, after: System, e: EnvKey)
    requires e in sys.store.records
  {
    || Nearer(sys, after, e)
    || (RankOf(after, e) == RankOf(sys, e) && e in after.store.records && Stage(after, e) == Stage(sys, e)
        && Ahead(after, e) < Ahead(sys, e))
  }

  // The namespace controller's turn.
  lemma Drain(sys: System, e: EnvKey) returns (a: Action)
    requires Tearing(sys.store, e) && NsPhase(sys.store, e) == 1
    ensures TeardownStep(sys, a, e) && Nearer(sys, Advanced(sys, a), e)
  {
    var ns := TargetOf(sys.store, e);
    if Content(sys.store, ns) == {} {
      a := RemoveNamespace(ns);
      RemovalLowers(sys, e);
    } else {
      var k :| k in Content(sys.store, ns);
      a := ChangeObject(k, None);
      DrainLowers(sys, e, k);
    }
    hide OwnedBy, TargetNamespace, RankOf, Below, Advanced;
  }

  // ----- a pass from before the deletion -----

  // A turn that leaves such a pass with less before it.
  lemma FlightLowers(sys: System, e: EnvKey, fate: Fault, choice: Choice, now: nat)
    requires Tearing(sys.store, e) && e in sys.procs
    requires Weight(Work(sys.store, e, sys.procs[e], fate, choice, now).next) < InFlight(sys.procs, e)
    ensures Below(RankOf(Advanced(sys, Advance(e, fate, choice, now)), e), RankOf(sys, e))
  {
    AfterFlight(sys, e, e, sys.queue, Work(sys.store, e, sys.procs[e], fate, choice, now));
    hide Work, Wakes, Weight, InFlight, NsPhase, Left;
  }

  lemma Wind(sys: System, e: EnvKey) returns (a: Action)
    requires Tearing(sys.store, e) && e in sys.procs && InFlight(sys.procs, e) > 0 && !Inside(sys, e)
    ensures TeardownStep(sys, a, e) && Nearer(sys, Advanced(sys, a), e)
  {
    a := Advance(e, Clean, Look, 0);
    OwnFlight(sys.store, e, sys.procs[e], Clean, Look, 0);
    assert InFlight(sys.procs, e) == Weight(Goto(sys.procs[e]));
    hide Work, Advanced, Below, RankOf, Weight, InFlight;
    FlightLowers(sys, e, Clean, Look, 0);
  }

  // The Deployment at its goal, as the server stores it.
  function Stored(s: Store, env: Env, svc: ServiceSpec): Obj {
    var now := ObjAt(s, DeployKey(env, svc.name));
    var uid := if now.Some? then now.value.uid else s.clock;
    WorkloadObj(s.fill, env, svc, Deployment, now).(uid := uid, version := s.clock)
  }

  lemma StoredHeld(s: Store, env: Env, svc: ServiceSpec)
    ensures OwnedBy(Stored(s, env, svc).labels, env.key)
  {
    StampedIsOwned(env, svc.name, map[]);
    hide OwnedBy, EnvLabels, DeploymentBody, SelectorBody;
  }

  // Writing a Deployment that may be written leaves a teardown where it is.
  lemma MoveKeepsRank(sys: System, after: System, e: EnvKey, k: Key, o: Obj)
    requires Tearing(sys.store, e) && k.kind == Deployment && (k in sys.store.objects || NsActive(sys.store, k.ns))
    requires after.store == Put(sys.store, k, o) && InFlight(after.procs, e) == InFlight(sys.procs, e)
    ensures RankOf(after, e) == RankOf(sys, e)
  {
    hide OwnedBy, TargetNamespace, InFlight;
    var ns := TargetOf(sys.store, e);
    if NsPhase(sys.store, e) == 1 {
      assert Content(after.store, ns) == Content(sys.store, ns);
    }
  }

  lemma MoveOn(sys: System, e: EnvKey, k: Key, o: Obj)
    requires Tearing(sys.store, e) && Inside(sys, e) && Sensible(sys.procs[e])
    requires var p := sys.procs[e];
             && p.seen < |p.read.spec.services| && Unheld(sys.store, e, p)
             && k == DeployKey(EnvOf(e, p.read), p.read.spec.services[p.seen].name) && OwnedBy(o.labels, e)
             && (k in sys.store.objects || NsActive(sys.store, k.ns))
    ensures Closer(sys, Advanced(sys, Advance(e, Clean, Move(k, Some(o)), 0)), e)
  {
    var after := Advanced(sys, Advance(e, Clean, Move(k, Some(o)), 0));
    hide OwnedBy, TargetNamespace, Wakes, RankOf, Below, FailedStatus, ProvisionedStatus;
    assert after.store == Put(sys.store, k, o) && after.procs == sys.procs[e := sys.procs[e]];
    MoveKeepsRank(sys, after, e, k, o);
  }

  lemma LookOn(sys: System, e: EnvKey)
    requires Tearing(sys.store, e) && Inside(sys, e)
    requires sys.procs[e].seen < |sys.procs[e].read.spec.services| && !Unheld(sys.store, e, sys.procs[e])
    ensures Closer(sys, Advanced(sys, Advance(e, Clean, Look, 0)), e)
  {
    NothingWakes(sys.store);
    hide OwnedBy, TargetNamespace, Wakes, NsPhase, Left, FailedStatus, ProvisionedStatus;
  }

  lemma LeaveOn(sys: System, e: EnvKey, choice: Choice)
    requires Tearing(sys.store, e) && Inside(sys, e)
    requires choice.Fail? || (choice.Finish? && sys.procs[e].seen == |sys.procs[e].read.spec.services|)
    ensures Closer(sys, Advanced(sys, Advance(e, Clean, choice, 0)), e)
  {
    LeavesInside(sys.store, e, sys.procs[e], choice);
    hide Work, Advanced, RankOf, Below, TargetNamespace, Tearing;
    FlightLowers(sys, e, Clean, choice, 0);
  }

  // A pass that is in the namespace goes on: it writes the next service's
  // Deployment unless it is in place, reads it, and when all are read comes to
  // its end. A Deployment that is missing is refused where the namespace is not
  // active.
  lemma WindInside(sys: System, e: EnvKey) returns (a: Action)
    requires Tearing(sys.store, e) && Inside(sys, e) && Sensible(sys.procs[e])
    ensures TeardownStep(sys, a, e) && Closer(sys, Advanced(sys, a), e)
  {
    hide Closer, Advanced, Tearing, OwnedBy, TargetNamespace, EnvLabels, Stored;
    var s, p := sys.store, sys.procs[e];
    var env := EnvOf(e, p.read);
    var choice := Finish([]);
    if p.seen == |p.read.spec.services| {
      LeaveOn(sys, e, choice);
    } else {
      var svc := p.read.spec.services[p.seen];
      var k := DeployKey(env, svc.name);
      if !Unheld(s, e, p) {
        choice := Look;
        LookOn(sys, e);
      } else if k in s.objects || NsActive(s, k.ns) {
        choice := Move(k, Some(Stored(s, env, svc)));
        StoredHeld(s, env, svc);
        hide Unheld;
        MoveOn(sys, e, k, Stored(s, env, svc));
      } else {
        choice := Fail(CallFailed(Forbidden));
        LeaveOn(sys, e, choice);
      }
    }
    a := Advance(e, Clean, choice, 0);
  }

  lemma LeavesInside(s: Store, e: EnvKey, p: Proc, choice: Choice)
    requires p.InNs? && (choice.Fail? || (choice.Finish? && p.seen == |p.read.spec.services|))
    ensures Weight(Work(s, e, p, Clean, choice, 0).next) < Weight(Goto(p))
  {
    hide FailedStatus, ProvisionedStatus, TargetNamespace;
  }

  // ----- a delete pass -----

  // The worker's turn, with what it read out of date: then its key is enqueued.
  lemma Refresh(sys: System, e: EnvKey)
    requires Safe(sys) && Awake(sys) && Tearing(sys.store, e) && e in sys.procs
    requires InFlight(sys.procs, e) == 0 && Stage(sys, e) >= 5
    ensures Nearer(sys, Advanced(sys, Advance(e, Clean, Look, 0)), e)
  {
    assert Standing(sys.store, e, sys.procs[e]);
    assert e in sys.queue || Knows(sys.store, e, sys.procs[e]);
    hide NoOrphans, Unclaimed, Nearer, Advanced, OwnedBy, TargetNamespace, AllReady, AtRest;
    if sys.procs[e].FindNs? {
      RefreshFind(sys, e);
    } else if sys.procs[e].DropFinalizer? {
      RefreshDrop(sys, e);
    } else {
      RefreshDelete(sys, e);
    }
  }

  lemma RefreshFind(sys: System, e: EnvKey)
    requires Tearing(sys.store, e) && e in sys.procs && e in sys.queue
    requires sys.procs[e].FindNs? && !Current(sys.store, e, sys.procs[e])
    requires TargetNamespace(EnvOf(e, sys.procs[e].read)) == TargetOf(sys.store, e)
    ensures Nearer(sys, Advanced(sys, Advance(e, Clean, Look, 0)), e)
  {
    NothingWakes(sys.store);
    hide Wakes, TargetNamespace, OwnedBy, Content;
  }

  lemma RefreshDrop(sys: System, e: EnvKey)
    requires Tearing(sys.store, e) && e in sys.procs && sys.procs[e].DropFinalizer?
    requires !Current(sys.store, e, sys.procs[e])
    ensures Nearer(sys, Advanced(sys, Advance(e, Clean, Look, 0)), e)
  {
    NothingWakes(sys.store);
    if Advanced(sys, Advance(e, Clean, Look, 0)).store != sys.store {
      DropLowers(sys, e, Clean, Look, 0);
    }
    hide Wakes, NsPhase, Left, Content;
  }

  lemma RefreshDelete(sys: System, e: EnvKey)
    requires Tearing(sys.store, e) && e in sys.procs && e in sys.queue
    requires sys.procs[e].DeleteNs? && NsPhase(sys.store, e) == 0
    requires TargetNamespace(EnvOf(e, sys.procs[e].read)) == TargetOf(sys.store, e)
    ensures Nearer(sys, Advanced(sys, Advance(e, Clean, Look, 0)), e)
  {
    hide Wakes, TargetNamespace, OwnedBy, Content;
  }

  // The worker's turn, with what it read still current.
  lemma PressFind(sys: System, e: EnvKey)
    requires Tearing(sys.store, e) && e in sys.procs && NsPhase(sys.store, e) != 1
    requires sys.procs[e].FindNs? && Current(sys.store, e, sys.procs[e])
    ensures Nearer(sys, Advanced(sys, Advance(e, Clean, Look, 0)), e)
  {
    NothingWakes(sys.store);
    hide Wakes, TargetNamespace, OwnedBy, Content;
  }

  lemma PressDelete(sys: System, e: EnvKey)
    requires Tearing(sys.store, e) && e in sys.procs && NsPhase(sys.store, e) == 2
    requires sys.procs[e].DeleteNs? && TargetNamespace(EnvOf(e, sys.procs[e].read)) == TargetOf(sys.store, e)
    ensures Nearer(sys, Advanced(sys, Advance(e, Clean, Look, 0)), e)
  {
    hide Wakes, TargetNamespace, OwnedBy, Content;
  }

  lemma PressDrop(sys: System, e: EnvKey)
    requires Tearing(sys.store, e) && e in sys.procs
    requires sys.procs[e].DropFinalizer? && Current(sys.store, e, sys.procs[e])
    ensures Nearer(sys, Advanced(sys, Advance(e, Clean, Look, 0)), e)
  {
    hide Wakes, NsPhase, Left;
  }

  lemma Press(sys: System, e: EnvKey)
    requires Safe(sys) && Tearing(sys.store, e) && e in sys.procs && NsPhase(sys.store, e) != 1
    requires InFlight(sys.procs, e) == 0 && Stage(sys, e) < 5
    ensures Nearer(sys, Advanced(sys, Advance(e, Clean, Look, 0)), e)
  {
    assert Standing(sys.store, e, sys.procs[e]);
    hide NoOrphans, Unclaimed, Nearer, Advanced, OwnedBy, TargetNamespace;
    if sys.procs[e].FindNs? {
      PressFind(sys, e);
    } else if sys.procs[e].DropFinalizer? {
      PressDrop(sys, e);
    } else {
      PressDelete(sys, e);
    }
  }

  // The queue's turn, and the timer's.
  lemma Resume(sys: System, e: EnvKey, a: Action)
    requires Tearing(sys.store, e) && e !in sys.procs
    requires (e in sys.queue && a == Take(e, Clean)) || (e !in sys.queue && e in sys.timers && a == Fire(e))
    ensures Nearer(sys, Advanced(sys, a), e)
  {
    NothingWakes(sys.store);
    hide Wakes, TargetNamespace, OwnedBy;
  }

  lemma OneMore(sys: System, e: EnvKey) returns (a: Action)
    requires Safe(sys) && Awake(sys) && Tearing(sys.store, e)
    ensures TeardownStep(sys, a, e) && Closer(sys, Advanced(sys, a), e)
  {
    hide Safe, Nearer, Advanced, Stage, Ahead, OwnedBy, TargetNamespace, AllReady, Sensible;
    if Inside(sys, e) {
      a := WindInside(sys, e);
    } else if e in sys.procs && InFlight(sys.procs, e) > 0 {
      a := Wind(sys, e);
    } else if e in sys.procs && Stage(sys, e) >= 5 {
      a := Advance(e, Clean, Look, 0);
      Refresh(sys, e);
    } else if NsPhase(sys.store, e) == 1 {
      a := Drain(sys, e);
    } else if e in sys.procs {
      a := Advance(e, Clean, Look, 0);
      Press(sys, e);
    } else {
      a := if e in sys.queue then Take(e, Clean) else Fire(e);
      Resume(sys, e, a);
    }
  }

  ghost predicate AllTeardown(sys: System, actions: seq<Action>, e: EnvKey) {
    forall i :: 0 <= i < |actions| ==> TeardownStep(Run(sys, actions[..i]), actions[i], e)
  }

  // Each step lowers the rank, or leaves it and brings the worker nearer to
  // the next that does.
  ghost predicate AllCloser(sys: System, actions: seq<Action>, e: EnvKey) {
    forall i :: 0 <= i < |actions| ==>
      var before := Run(sys, actions[..i]); e in before.store.records && Closer(before, Advanced(before, actions[i]), e)
  }

  lemma OneMoreAwake(sys: System, e: EnvKey) returns (a: Action)
    requires Safe(sys) && Awake(sys) && Tearing(sys.store, e)
    ensures e in sys.store.records && TeardownStep(sys, a, e) && Closer(sys, Advanced(sys, a), e)
    ensures Safe(Advanced(sys, a)) && Awake(Advanced(sys, a))
  {
    a := OneMore(sys, e);
    hide Safe, Awake, Advanced, Tearing, TeardownStep, Closer;
    StepSafe(sys, a);
    StepAwake(sys, a);
  }

  lemma OnlyOne(sys: System, a: Action, e: EnvKey)
    requires e in sys.store.records && TeardownStep(sys, a, e) && Closer(sys, Advanced(sys, a), e)
    ensures AllTeardown(sys, [a], e) && AllCloser(sys, [a], e) && Run(sys, [a]) == Advanced(sys, a)
  {
    hide Advanced, TeardownStep, Closer;
    assert [a][..0] == [] && Run(sys, []) == sys;
  }

  lemma EndsFrom(sys: System, e: EnvKey) returns (actions: seq<Action>)
    requires Safe(sys) && Awake(sys) && Tearing(sys.store, e)
    ensures AllTeardown(sys, actions, e) && AllCloser(sys, actions, e)
    ensures !Tearing(Run(sys, actions).store, e)
    decreases RankOf(sys, e).unreleased, RankOf(sys, e).inFlight, RankOf(sys, e).phase, RankOf(sys, e).left,
              Stage(sys, e), Ahead(sys, e)
  {
    hide Safe, Awake, Tearing, Advanced, Run, AllTeardown, AllCloser, TeardownStep, Stage, Ahead, RankOf;
    var a := OneMoreAwake(sys, e);
    actions := [a];
    if Tearing(Advanced(sys, a).store, e) {
      var rest := EndsFrom(Advanced(sys, a), e);
      actions := [a] + rest;
      RunFrom(sys, a, rest);
      OneBefore(sys, a, rest, e);
    } else {
      OnlyOne(sys, a, e);
    }
  }

  lemma OneBefore(sys: System, a: Action, rest: seq<Action>, e: EnvKey)
    requires e in sys.store.records && TeardownStep(sys, a, e) && Closer(sys, Advanced(sys, a), e)
    requires AllTeardown(Advanced(sys, a), rest, e) && AllCloser(Advanced(sys, a), rest, e)
    ensures AllTeardown(sys, [a] + rest, e) && AllCloser(sys, [a] + rest, e)
  {
    var next, actions := Advanced(sys, a), [a] + rest;
    hide Advanced, TeardownStep, Closer;
    assert actions[..0] == [] && Run(sys, []) == sys;
    forall i | 0 < i < |actions|
      ensures Run(sys, actions[..i]) == Run(next, rest[..i - 1]) && actions[i] == rest[i - 1]
    {
      assert actions[..i] == [a] + rest[..i - 1];
      RunFrom(sys, a, rest[..i - 1]);
    }
    hide Run;
  }

  lemma {:induction false} RunFrom(sys: System, a: Action, rest: seq<Action>)
    ensures Run(sys, [a] + rest) == Run(Advanced(sys, a), rest)
    decreases |rest|
  {
    var all := [a] + rest;
    hide Advanced;
    if rest == [] {
      assert all[..0] == [] && all == [a];
    } else {
      assert all[..|all| - 1] == [a] + rest[..|rest| - 1];
      RunFrom(sys, a, rest[..|rest| - 1]);
    }
  }

  // From every reachable state the controller, losing no request, and the
  // namespace controller can on their own bring a teardown to its end.
  lemma TeardownEnds(sys: System, e: EnvKey) returns (actions: seq<Action>)
    requires Reachable(sys) && Tearing(sys.store, e)
    ensures AllTeardown(sys, actions, e) && AllCloser(sys, actions, e)
    ensures !Tearing(Run(sys, actions).store, e)
  {
    ReachableAwake(sys);
    hide Reachable, Safe, Awake, Tearing, AllTeardown, AllCloser, Run;
    actions := EndsFrom(sys, e);
  }
}
