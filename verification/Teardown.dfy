// controller.go:697-732: taking an environment down never goes backwards,
// whatever else happens, and comes to an end.
module Teardown {
  import opened Text
  import opened Types
  import opened Server
  import opened Client
  import opened Passes
  import opened StatusRules
  import opened Protocol
  import opened NoOrphan

  // The record is being deleted and has not been released.
  predicate Tearing(s: Store, e: EnvKey) {
    e in s.records && s.records[e].deleting && Ours in s.records[e].finalizers
  }

  function TargetOf(s: Store, e: EnvKey): string
    requires e in s.records
  {
    TargetNamespace(EnvOf(e, s.records[e]))
  }

  // ----- the measure -----

  // How far a pass that began before the deletion still has to go.
  function InFlight(procs: map<EnvKey, Proc>, e: EnvKey): nat {
    if e !in procs then 0
    else match procs[e]
      case AddFinalizer(_) => 5
      case GetNs(_) => 4
      case CreateNs(_) => 3
      case PatchNs(_, _) => 3
      case InNs(_, _, _) => 2
      case WriteStatus(_, _, _) => 1
      case _ => 0
  }

  // The environment's namespace: active, going, or gone.
  function NsPhase(s: Store, e: EnvKey): nat
    requires e in s.records
  {
    var k := NsKey(TargetOf(s, e));
    if k !in s.objects || !OwnedBy(s.objects[k].labels, e) then 0
    else if s.objects[k].terminating then 1 else 2
  }

  // What a namespace that is going still holds.
  function Left(s: Store, e: EnvKey): nat
    requires e in s.records
  {
    if NsPhase(s, e) == 1 then |Content(s, TargetOf(s, e))| else 0
  }

  // Record, in-flight pass, namespace, content. A released record ranks
  // lowest.
  datatype Rank = Rank(unreleased: nat, inFlight: nat, phase: nat, left: nat)

  function RankOf(sys: System, e: EnvKey): Rank {
    if Tearing(sys.store, e) then Rank(1, InFlight(sys.procs, e), NsPhase(sys.store, e), Left(sys.store, e))
    else Rank(0, 0, 0, 0)
  }

  predicate Below(a: Rank, b: Rank) {
    || a.unreleased < b.unreleased
    || (a.unreleased == b.unreleased &&
        (|| a.inFlight < b.inFlight
         || (a.inFlight == b.inFlight &&
             (a.phase < b.phase || (a.phase == b.phase && a.left < b.left)))))
  }

  // ----- what does not raise it -----

  // As far as e is concerned: its record still has the same target, no
  // namespace is claimed for it that was not, none is back from terminating,
  // and nothing has appeared in a namespace that is going.
  ghost predicate NoStepBack(s: Store, t: Store, e: EnvKey) {
    && (Tearing(t, e) ==> e in s.records && TargetOf(t, e) == TargetOf(s, e) && NsPhase(t, e) <= NsPhase(s, e))
    && (Tearing(t, e) && NsPhase(t, e) == NsPhase(s, e) == 1 ==>
        Content(t, TargetOf(t, e)) <= Content(s, TargetOf(s, e)))
  }

  lemma NotRaised(sys: System, after: System, e: EnvKey)
    requires Tearing(sys.store, e) && NoStepBack(sys.store, after.store, e)
    requires InFlight(after.procs, e) <= InFlight(sys.procs, e)
    ensures RankOf(after, e) == RankOf(sys, e) || Below(RankOf(after, e), RankOf(sys, e))
  {
    if Tearing(after.store, e) && NsPhase(after.store, e) == NsPhase(sys.store, e) == 1 {
      Fewer(Content(after.store, TargetOf(after.store, e)), Content(sys.store, TargetOf(sys.store, e)));
    }
    hide InFlight, NsPhase, Content, TargetOf;
  }

  lemma Fewer(a: set<Key>, b: set<Key>)
    requires a <= b
    ensures |a| <= |b| && (a != b ==> |a| < |b|)
  {
    var rest := b - a;
    assert b == a + rest;
    assert |b| == |a| + |rest|;
  }

  lemma OthersNoStepBack(s: Store, a: Action, e: EnvKey)
    requires Tearing(s, e)
    ensures NoStepBack(s, Others(s, a), e)
  {
    var t := Others(s, a);
    match a
    case ChangeObject(k, o) => PutNoStepBack(s, k, o, e);
    case CreateNamespace(name, labels) =>
      ClaimIsOwnership(labels, e);
      hide ClaimedBy, OwnedBy, EnvLabels, TargetNamespace;
    case LabelNamespace(name, labels) =>
      ClaimIsOwnership(labels, e);
      if NsKey(name) in s.objects {
        ClaimIsOwnership(s.objects[NsKey(name)].labels, e);
      }
      hide ClaimedBy, OwnedBy, EnvLabels, TargetNamespace;
    case _ =>
      hide ClaimedBy, OwnedBy, EnvLabels, TargetNamespace;
  }

  lemma PutNoStepBack(s: Store, k: Key, o: Option<Obj>, e: EnvKey)
    requires Tearing(s, e)
    ensures var t := if Permitted(s, k, o) then PutObject(s, k, o) else s; NoStepBack(s, t, e)
  {
    hide OwnedBy, TargetNamespace;
  }

  // ----- workers -----

  lemma ForeignTurn(s: Store, e: EnvKey, f: EnvKey, p: Proc, fate: Fault, choice: Choice, now: nat)
    requires Tearing(s, e) && f != e && Standing(s, f, p)
    ensures NoStepBack(s, Work(s, f, p, fate, choice, now).store, e)
  {
    hide Work, OwnedBy, TargetNamespace;
    match p
    case CreateNs(_) => ForeignCreate(s, e, f, p, fate, choice, now);
    case PatchNs(_, _) => ForeignPatch(s, e, f, p, fate, choice, now);
    case InNs(_, _, _) => InNsNoStepBack(s, e, f, p, fate, choice, now);
    case DeleteNs(_) => DeleteTurn(s, e, f, p, fate, choice, now);
    case _ => ForeignRecord(s, e, f, p, fate, choice, now);
  }

  lemma ForeignRecord(s: Store, e: EnvKey, f: EnvKey, p: Proc, fate: Fault, choice: Choice, now: nat)
    requires Tearing(s, e) && f != e
    requires p.AddFinalizer? || p.GetNs? || p.WriteStatus? || p.FindNs? || p.DropFinalizer?
    ensures NoStepBack(s, Work(s, f, p, fate, choice, now).store, e)
  {
    hide OwnedBy, TargetNamespace, FailedStatus, LabelPatch;
  }

  lemma ForeignCreate(s: Store, e: EnvKey, f: EnvKey, p: Proc, fate: Fault, choice: Choice, now: nat)
    requires Tearing(s, e) && f != e && p.CreateNs?
    ensures NoStepBack(s, Work(s, f, p, fate, choice, now).store, e)
  {
    StampedIsOwned(EnvOf(f, p.read), "", map[]);
    if OwnedBy(EnvLabels(EnvOf(f, p.read), ""), e) {
      OneOwner(EnvLabels(EnvOf(f, p.read), ""), e, f);
    }
    hide OwnedBy, TargetNamespace, FailedStatus, EnvLabels;
  }

  lemma ForeignPatch(s: Store, e: EnvKey, f: EnvKey, p: Proc, fate: Fault, choice: Choice, now: nat)
    requires Tearing(s, e) && f != e && p.PatchNs? && NoOwnership(p.delta)
    ensures NoStepBack(s, Work(s, f, p, fate, choice, now).store, e)
  {
    hide TargetNamespace, FailedStatus;
  }

  lemma DeleteTurn(s: Store, e: EnvKey, f: EnvKey, p: Proc, fate: Fault, choice: Choice, now: nat)
    requires Tearing(s, e) && p.DeleteNs?
    ensures NoStepBack(s, Work(s, f, p, fate, choice, now).store, e)
  {
    hide OwnedBy, TargetNamespace;
  }

  lemma InNsNoStepBack(s: Store, e: EnvKey, f: EnvKey, p: Proc, fate: Fault, choice: Choice, now: nat)
    requires Tearing(s, e) && p.InNs?
    ensures NoStepBack(s, Work(s, f, p, fate, choice, now).store, e)
  {
    if choice.Move? {
      PutNoStepBack(s, choice.k, choice.o, e);
    }
    hide OwnedBy, TargetNamespace, FailedStatus, ProvisionedStatus, Permitted, NoStepBack;
    StandsStill(s, e);
  }

  lemma StandsStill(s: Store, e: EnvKey)
    requires Tearing(s, e)
    ensures NoStepBack(s, s, e)
  {
  }

  function Weight(next: Next): nat {
    match next
    case Goto(p) => InFlight(map[EnvKey("", "") := p], EnvKey("", ""))
    case _ => 0
  }

  // Outside the namespace every turn of a pass that was in flight brings its
  // end nearer.
  lemma OwnFlight(s: Store, e: EnvKey, p: Proc, fate: Fault, choice: Choice, now: nat)
    ensures Weight(Work(s, e, p, fate, choice, now).next) <= Weight(Goto(p))
    ensures Weight(Goto(p)) > 0 && !p.InNs? ==> Weight(Work(s, e, p, fate, choice, now).next) < Weight(Goto(p))
  {
    hide FailedStatus, ProvisionedStatus, LabelPatch, OwnedBy, Permitted, UpdateFinalizers, UpdateStatus, PatchLabels,
         Server.Create, Server.Delete;
  }

  lemma OwnTurn(s: Store, e: EnvKey, p: Proc, fate: Fault, choice: Choice, now: nat)
    requires Tearing(s, e) && (p.InNs? || Weight(Goto(p)) == 0)
    ensures NoStepBack(s, Work(s, e, p, fate, choice, now).store, e)
  {
    hide Work, OwnedBy, TargetNamespace;
    match p
    case InNs(_, _, _) => InNsNoStepBack(s, e, e, p, fate, choice, now);
    case DeleteNs(_) => DeleteTurn(s, e, e, p, fate, choice, now);
    case _ => OwnRecord(s, e, p, fate, choice, now);
  }

  lemma OwnRecord(s: Store, e: EnvKey, p: Proc, fate: Fault, choice: Choice, now: nat)
    requires Tearing(s, e) && (p.FindNs? || p.DropFinalizer?)
    ensures NoStepBack(s, Work(s, e, p, fate, choice, now).store, e)
  {
    hide OwnedBy, TargetNamespace;
  }

  lemma AfterFlight(sys: System, e: EnvKey, f: EnvKey, queue: set<EnvKey>, turn: Turn)
    ensures var after := After(sys, f, queue, turn);
            InFlight(after.procs, e) == if f == e then Weight(turn.next) else InFlight(sys.procs, e)
  {
    hide Wakes;
  }

  // ----- never backwards -----

  // No step of anybody's - worker, user, outsider, crash - raises the rank of
  // an environment that is being torn down.
  lemma NeverBackwards(sys: System, a: Action, e: EnvKey)
    requires Reachable(sys) && Tearing(sys.store, e)
    ensures var after := Advanced(sys, a); RankOf(after, e) == RankOf(sys, e) || Below(RankOf(after, e), RankOf(sys, e))
  {
    ReachableSafe(sys);
    hide Reachable;
    match a
    case Take(f, fate) =>
      if f in sys.queue && f !in sys.procs {
        StandsStill(sys.store, e);
        AfterFlight(sys, e, f, sys.queue - {f}, Turn(sys.store, Start(sys.store, f, fate)));
        NotRaised(sys, Advanced(sys, a), e);
        hide NoStepBack, RankOf, Below, Wakes;
      }
    case Advance(f, fate, choice, now) =>
      if f in sys.procs {
        AdvanceNotRaised(sys, f, fate, choice, now, e);
        hide RankOf, Below, Advanced;
      }
    case Crash =>
      StandsStill(sys.store, e);
      NotRaised(sys, Advanced(sys, a), e);
    case Fire(_) =>
      StandsStill(sys.store, e);
      NotRaised(sys, Advanced(sys, a), e);
    case _ =>
      OthersNoStepBack(sys.store, a, e);
      hide Others, Wakes, NoStepBack, RankOf, Below;
      NotRaised(sys, Advanced(sys, a), e);
  }

  lemma AdvanceNotRaised(sys: System, f: EnvKey, fate: Fault, choice: Choice, now: nat, e: EnvKey)
    requires Safe(sys) && Tearing(sys.store, e) && f in sys.procs
    ensures var after := Advanced(sys, Advance(f, fate, choice, now));
            RankOf(after, e) == RankOf(sys, e) || Below(RankOf(after, e), RankOf(sys, e))
  {
    var s, p := sys.store, sys.procs[f];
    var turn := Work(s, f, p, fate, choice, now);
    var after := Advanced(sys, Advance(f, fate, choice, now));
    AfterFlight(sys, e, f, sys.queue, turn);
    assert InFlight(sys.procs, f) == Weight(Goto(p));
    assert Standing(s, f, p);
    hide Work, Wakes, Standing, NoOrphans, InFlight, Weight, NsPhase, Left, NoStepBack;
    if f != e {
      ForeignTurn(s, e, f, p, fate, choice, now);
      NotRaised(sys, after, e);
    } else {
      OwnFlight(s, e, p, fate, choice, now);
      if p.InNs? || Weight(Goto(p)) == 0 {
        OwnTurn(s, e, p, fate, choice, now);
        NotRaised(sys, after, e);
      }
    }
  }

  // ----- released only when there is nothing left -----

  lemma ReleasedOnlyWhenGone(sys: System, a: Action, e: EnvKey)
    requires Reachable(sys) && Tearing(sys.store, e) && !Tearing(Advanced(sys, a).store, e)
    ensures Unclaimed(sys.store, e) && Unclaimed(Advanced(sys, a).store, e)
    ensures a.Advance? && a.e == e && e in sys.procs && sys.procs[e].DropFinalizer?
  {
    ReachableSafe(sys);
    hide Reachable;
    match a
    case Take(f, fate) => hide Start;
    case Advance(f, fate, choice, now) =>
      if f in sys.procs {
        assert Standing(sys.store, f, sys.procs[f]);
        hide Wakes, NoOrphans, Standing;
        if !(sys.procs[f].DropFinalizer? && f == e) {
          KeepsTearing(sys.store, e, f, sys.procs[f], fate, choice, now);
        }
        hide Work;
        DropTouchesNoObject(sys.store, e, sys.procs[e], fate, choice, now);
        assert Standing(sys.store, e, sys.procs[e]);
      }
    case Crash =>
    case Fire(_) =>
    case _ =>
      OthersHarmless(sys.store, a);
      OthersKeepTearing(sys.store, a, e);
      hide Others, Wakes, Harmless;
  }

  lemma OthersKeepTearing(s: Store, a: Action, e: EnvKey)
    requires Tearing(s, e)
    ensures Tearing(Others(s, a), e)
  {
    hide ClaimedBy, EnvLabels, TargetNamespace;
  }

  lemma KeepsTearing(s: Store, e: EnvKey, f: EnvKey, p: Proc, fate: Fault, choice: Choice, now: nat)
    requires Tearing(s, e) && !(p.DropFinalizer? && f == e)
    ensures Tearing(Work(s, f, p, fate, choice, now).store, e)
  {
    hide FailedStatus, ProvisionedStatus, LabelPatch, OwnedBy, Permitted, TargetNamespace, EnvLabels;
  }

  lemma DropTouchesNoObject(s: Store, e: EnvKey, p: Proc, fate: Fault, choice: Choice, now: nat)
    requires p.DropFinalizer?
    ensures Work(s, e, p, fate, choice, now).store.objects == s.objects
  {
  }

  // ----- every effective step leads on -----

  // What a delete pass and the namespace controller do for a teardown: the
  // worker's delete of the namespace or drop of the finalizer, when it changes
  // anything, and taking an object out of the namespace while it is going, or
  // at last the namespace itself.
  ghost predicate Effective(sys: System, a: Action, e: EnvKey) {
    Tearing(sys.store, e) &&
    match a
    case Advance(f, _, _, _) =>
      && f == e && e in sys.procs && Advanced(sys, a).store != sys.store
      && (sys.procs[e].DropFinalizer? || (sys.procs[e].DeleteNs? && NsPhase(sys.store, e) != 0))
    case ChangeObject(k, o) => o.None? && NsPhase(sys.store, e) == 1 && k in Content(sys.store, TargetOf(sys.store, e))
    case RemoveNamespace(name) =>
      NsPhase(sys.store, e) == 1 && name == TargetOf(sys.store, e) && Content(sys.store, name) == {}
    case _ => false
  }

  lemma DrainLowers(sys: System, e: EnvKey, k: Key)
    requires Tearing(sys.store, e) && NsPhase(sys.store, e) == 1 && k in Content(sys.store, TargetOf(sys.store, e))
    ensures Below(RankOf(Advanced(sys, ChangeObject(k, None)), e), RankOf(sys, e))
  {
    var s, ns := sys.store, TargetOf(sys.store, e);
    var t := Others(s, ChangeObject(k, None));
    hide OwnedBy, TargetNamespace, Wakes, InFlight;
    assert Content(t, ns) == Content(s, ns) - {k};
    Fewer(Content(t, ns), Content(s, ns));
  }

  lemma RemovalLowers(sys: System, e: EnvKey)
    requires Tearing(sys.store, e) && NsPhase(sys.store, e) == 1 && Content(sys.store, TargetOf(sys.store, e)) == {}
    ensures Below(RankOf(Advanced(sys, RemoveNamespace(TargetOf(sys.store, e))), e), RankOf(sys, e))
  {
    hide OwnedBy, TargetNamespace, Wakes, InFlight;
  }

  // A worker of e at its delete or its drop; the store changes.
  lemma DeleteLowers(sys: System, e: EnvKey, fate: Fault, choice: Choice, now: nat)
    requires Tearing(sys.store, e) && e in sys.procs && sys.procs[e].DeleteNs? && NsPhase(sys.store, e) != 0
    requires TargetNamespace(EnvOf(e, sys.procs[e].read)) == TargetOf(sys.store, e)
    requires Advanced(sys, Advance(e, fate, choice, now)).store != sys.store
    ensures Below(RankOf(Advanced(sys, Advance(e, fate, choice, now)), e), RankOf(sys, e))
  {
    hide Wakes, TargetNamespace, OwnedBy, Content;
  }

  lemma DropLowers(sys: System, e: EnvKey, fate: Fault, choice: Choice, now: nat)
    requires Tearing(sys.store, e) && e in sys.procs && sys.procs[e].DropFinalizer?
    requires Advanced(sys, Advance(e, fate, choice, now)).store != sys.store
    ensures Below(RankOf(Advanced(sys, Advance(e, fate, choice, now)), e), RankOf(sys, e))
  {
    hide Wakes, NsPhase, Left;
  }

  // Every effective step, whatever becomes of its request and wherever it
  // falls in a run, lowers the rank.
  lemma EffectiveLowers(sys: System, a: Action, e: EnvKey)
    requires Reachable(sys) && Effective(sys, a, e)
    ensures Below(RankOf(Advanced(sys, a), e), RankOf(sys, e))
  {
    ReachableSafe(sys);
    hide Reachable, NoOrphans, RankOf, Below, Advanced, NsPhase;
    match a
    case Advance(_, fate, choice, now) =>
      assert Standing(sys.store, e, sys.procs[e]);
      hide Unclaimed;
      if sys.procs[e].DropFinalizer? {
        DropLowers(sys, e, fate, choice, now);
      } else {
        DeleteLowers(sys, e, fate, choice, now);
      }
    case ChangeObject(k, _) => DrainLowers(sys, e, k);
    case RemoveNamespace(_) => RemovalLowers(sys, e);
  }

  // The same of a delete pass taken whole: unless it changes nothing, it
  // lowers the rank, from any store.
  lemma DeletePassLowers(sys: System, t: Store, e: EnvKey)
    requires Tearing(sys.store, e) && t == DeleteResult(sys.store, e) && t != sys.store
    ensures Below(RankOf(sys.(store := t), e), RankOf(sys, e))
  {
    hide TargetNamespace, OwnedBy, Content, InFlight;
  }
}
