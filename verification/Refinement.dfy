// The machine that takes one request at a time and the passes that are taken
// whole are the same controller.
module Refinement {
  import opened Text
  import opened Types
  import opened Server
  import opened Goals
  import opened Client
  import opened Steps
  import opened Passes
  import opened StatusRules
  import opened Protocol
  import opened Teardown
  import opened WakeUps

  // The system when only e is to be looked at, and nobody interferes.
  function Alone(s: Store, e: EnvKey): System {
    System(s, {e}, {}, map[])
  }

  lemma RunThree(sys: System, a: Action, b: Action, c: Action)
    ensures Run(sys, [a, b, c]) == Advanced(Advanced(Advanced(sys, a), b), c)
  {
    hide Advanced;
    assert [a, b, c][..2] == [a, b] && [a, b][..1] == [a] && [a][..0] == [];
    assert Run(sys, []) == sys;
    assert Run(sys, [a]) == Advanced(sys, a);
    assert Run(sys, [a, b]) == Advanced(Advanced(sys, a), b);
  }

  lemma RunFour(sys: System, a: Action, b: Action, c: Action, d: Action)
    ensures Run(sys, [a, b, c, d]) == Advanced(Advanced(Advanced(Advanced(sys, a), b), c), d)
  {
    RunThree(sys, a, b, c);
    hide Advanced;
    assert [a, b, c, d][..3] == [a, b, c];
  }

  // A worker alone: its turn is all that happens.
  lemma AdvanceAlone(sys: System, e: EnvKey, p: Proc, fate: Fault, choice: Choice, now: nat)
    requires sys.procs == map[e := p]
    ensures var turn := Work(sys.store, e, p, fate, choice, now);
            var after := Advanced(sys, Advance(e, fate, choice, now));
            && after.store == turn.store
            && after.procs == match turn.next case Goto(q) => map[e := q] case _ => map[]
  {
    hide Work, Wakes;
  }

  // And when there is no worker, nothing happens.
  lemma AdvanceNobody(sys: System, e: EnvKey, fate: Fault, choice: Choice, now: nat)
    requires sys.procs == map[]
    ensures Advanced(sys, Advance(e, fate, choice, now)) == sys
  {
  }

  lemma DeleteStart(s: Store, e: EnvKey)
    requires Tearing(s, e)
    ensures var one := Advanced(Alone(s, e), Take(e, Clean));
            one.store == s && one.procs == map[e := FindNs(s.records[e])]
  {
    NothingWakes(s);
    hide Wakes;
  }

  // Its two requests: the namespace is looked for, and then marked, or the
  // finalizer dropped, or neither.
  lemma DeleteTurns(s: Store, e: EnvKey)
    requires Tearing(s, e)
    ensures var first := Work(s, e, FindNs(s.records[e]), Clean, Look, 0);
            && first.store == s
            && DeleteResult(s, e) == if first.next.Goto? then Work(s, e, first.next.proc, Clean, Look, 0).store else s
  {
    hide OwnedBy, TargetNamespace;
  }

  // A delete pass that loses no request is three steps of the machine.
  lemma DeletePassIsRun(s: Store, e: EnvKey)
    requires Tearing(s, e)
    ensures var go := Advance(e, Clean, Look, 0);
            Run(Alone(s, e), [Take(e, Clean), go, go]).store == DeleteResult(s, e)
  {
    var go := Advance(e, Clean, Look, 0);
    var one := Advanced(Alone(s, e), Take(e, Clean));
    var two := Advanced(one, go);
    var p := FindNs(s.records[e]);
    DeleteStart(s, e);
    DeleteTurns(s, e);
    RunThree(Alone(s, e), Take(e, Clean), go, go);
    hide Run, Advanced, Work, Alone, DeleteResult;
    AdvanceAlone(one, e, p, Clean, Look, 0);
    if Work(s, e, p, Clean, Look, 0).next.Goto? {
      AdvanceAlone(two, e, Work(s, e, p, Clean, Look, 0).next.proc, Clean, Look, 0);
    } else {
      AdvanceNobody(two, e, Clean, Look, 0);
    }
  }

  // What the machine has done when it gets to the content of the namespace.
  ghost predicate HeadDone(s: Store, t: Store, e: EnvKey)
    requires e in s.records
  {
    var k := NsKey(TargetNamespace(EnvOf(e, s.records[e])));
    && (forall j :: j != k ==> ObjAt(t, j) == ObjAt(s, j))
    && FaceAt(t, k) == Goal(s, EnvOf(e, s.records[e]), k)
    && OnlyRecord(s, t, e)
    && e in t.records && t.records[e].finalizers == s.records[e].finalizers + {Ours}
    && t.records[e].(finalizers := {}, version := 0) == s.records[e].(finalizers := {}, version := 0)
  }

  // A provisioning pass that loses no request puts the finalizer on, then
  // brings the namespace to its goal, and then turns to the content.
  lemma HeadIsRun(s: Store, e: EnvKey)
    requires e in s.records && !s.records[e].deleting && NsMine(s, EnvOf(e, s.records[e]))
    ensures var go := Advance(e, Clean, Look, 0);
            var actions := if Ours in s.records[e].finalizers then [Take(e, Clean), go, go]
              else [Take(e, Clean), go, go, go];
            var after := Run(Alone(s, e), actions);
            && HeadDone(s, after.store, e)
            && after.procs == map[e := InNs(after.store.records[e], 0, 0)]
  {
    hide Run, HeadDone, Advanced, OwnedBy;
    if Ours in s.records[e].finalizers {
      HeadReady(s, e);
    } else {
      HeadFirst(s, e);
    }
  }

  // With the finalizer on already.
  lemma HeadReady(s: Store, e: EnvKey)
    requires e in s.records && !s.records[e].deleting && NsMine(s, EnvOf(e, s.records[e]))
    requires Ours in s.records[e].finalizers
    ensures var go := Advance(e, Clean, Look, 0);
            var after := Run(Alone(s, e), [Take(e, Clean), go, go]);
            HeadDone(s, after.store, e) && after.procs == map[e := InNs(after.store.records[e], 0, 0)]
  {
    var go := Advance(e, Clean, Look, 0);
    var sys := Advanced(Alone(s, e), Take(e, Clean));
    assert s.records[e].finalizers + {Ours} == s.records[e].finalizers;
    assert Finalized(s, sys.store, e) && sys.procs == map[e := GetNs(sys.store.records[e])];
    hide Run, HeadDone, Finalized, Wakes, Advanced, NsMine;
    RunThree(Alone(s, e), Take(e, Clean), go, go);
    NamespaceTurns(s, sys, e);
  }

  // With the finalizer still to come.
  lemma HeadFirst(s: Store, e: EnvKey)
    requires e in s.records && !s.records[e].deleting && NsMine(s, EnvOf(e, s.records[e]))
    requires Ours !in s.records[e].finalizers
    ensures var go := Advance(e, Clean, Look, 0);
            var after := Run(Alone(s, e), [Take(e, Clean), go, go, go]);
            HeadDone(s, after.store, e) && after.procs == map[e := InNs(after.store.records[e], 0, 0)]
  {
    var go := Advance(e, Clean, Look, 0);
    var sys := Advanced(Alone(s, e), Take(e, Clean));
    assert sys.store == s && sys.procs == map[e := AddFinalizer(s.records[e])];
    hide Run, HeadDone, Finalized, Wakes, Advanced, NsMine;
    RunFour(Alone(s, e), Take(e, Clean), go, go, go);
    FinalizerAdded(s, sys, e);
    NamespaceTurns(s, Advanced(sys, go), e);
  }

  ghost predicate Finalized(s: Store, t: Store, e: EnvKey)
    requires e in s.records
  {
    && t.objects == s.objects && OnlyRecord(s, t, e)
    && e in t.records && t.records[e].finalizers == s.records[e].finalizers + {Ours}
    && t.records[e].(finalizers := {}, version := 0) == s.records[e].(finalizers := {}, version := 0)
  }

  lemma FinalizerAdded(s: Store, sys: System, e: EnvKey)
    requires e in s.records && !s.records[e].deleting && Ours !in s.records[e].finalizers
    requires sys.store == s && sys.procs == map[e := AddFinalizer(s.records[e])]
    ensures var with := Advanced(sys, Advance(e, Clean, Look, 0));
            Finalized(s, with.store, e) && with.procs == map[e := GetNs(with.store.records[e])]
  {
    hide Wakes;
  }

  // Reading the namespace, and then creating or patching it.
  ghost predicate NamespaceWorked(t: Store, e: EnvKey, read: Record, turn: Turn) {
    && turn.next == Goto(InNs(read, 0, 0))
    && SameBut(t, turn.store, NsKey(TargetNamespace(EnvOf(e, read))))
    && FaceAt(turn.store, NsKey(TargetNamespace(EnvOf(e, read)))) == NamespaceGoal(t, EnvOf(e, read))
  }

  lemma CreateWorks(t: Store, e: EnvKey, read: Record)
    requires NsKey(TargetNamespace(EnvOf(e, read))) !in t.objects
    ensures Work(t, e, GetNs(read), Clean, Look, 0) == Turn(t, Goto(CreateNs(read)))
    ensures NamespaceWorked(t, e, read, Work(t, e, CreateNs(read), Clean, Look, 0))
  {
    hide EnvLabels, TargetNamespace;
  }

  lemma PatchWorks(t: Store, e: EnvKey, read: Record)
    requires NsOwned(t, EnvOf(e, read))
    ensures var delta := LabelPatch(EnvOf(e, read), t.objects[NsKey(TargetNamespace(EnvOf(e, read)))].labels);
            && Work(t, e, GetNs(read), Clean, Look, 0) == Turn(t, Goto(PatchNs(read, delta)))
            && NamespaceWorked(t, e, read, Work(t, e, PatchNs(read, delta), Clean, Look, 0))
  {
    PatchCompletes(EnvOf(e, read), t.objects[NsKey(TargetNamespace(EnvOf(e, read)))].labels);
    hide EnvLabels, TargetNamespace, OwnedBy, LabelPatch;
  }

  lemma NamespaceTurns(s: Store, sys: System, e: EnvKey)
    requires e in s.records && NsMine(s, EnvOf(e, s.records[e]))
    requires Finalized(s, sys.store, e) && sys.procs == map[e := GetNs(sys.store.records[e])]
    ensures var go := Advance(e, Clean, Look, 0);
            var after := Advanced(Advanced(sys, go), go);
            && HeadDone(s, after.store, e)
            && after.procs == map[e := InNs(after.store.records[e], 0, 0)]
  {
    var t := sys.store;
    var read := t.records[e];
    var env := EnvOf(e, read);
    assert env == EnvOf(e, s.records[e]);
    var go := Advance(e, Clean, Look, 0);
    var half := Advanced(sys, go);
    AdvanceAlone(sys, e, GetNs(read), Clean, Look, 0);
    hide Advanced, EnvLabels, OwnedBy, LabelPatch, Work, TargetNamespace, HeadDone, NamespaceWorked, NamespaceGoal,
         Goal;
    if NsKey(TargetNamespace(env)) in t.objects {
      PatchWorks(t, e, read);
    } else {
      CreateWorks(t, e, read);
    }
    AdvanceAlone(half, e, half.procs[e], Clean, Look, 0);
    HeadComplete(s, t, e, Work(t, e, half.procs[e], Clean, Look, 0));
  }

  lemma HeadComplete(s: Store, t: Store, e: EnvKey, turn: Turn)
    requires e in s.records && Finalized(s, t, e) && NamespaceWorked(t, e, t.records[e], turn)
    ensures HeadDone(s, turn.store, e) && e in turn.store.records
    ensures turn.next == Goto(InNs(turn.store.records[e], 0, 0))
  {
    SameNamespaceGoal(s, t, EnvOf(e, s.records[e]));
    hide Goal, NamespaceGoal, TargetNamespace;
    assert EnvOf(e, t.records[e]) == EnvOf(e, s.records[e]);
    forall j | j != e ensures RecordAt(turn.store, j) == RecordAt(s, j) {
      assert RecordAt(t, j) == RecordAt(s, j);
    }
  }

  lemma SameNamespaceGoal(s: Store, t: Store, env: Env)
    requires t.objects == s.objects && t.fill == s.fill
    ensures Goal(s, env, NsKey(TargetNamespace(env))) == NamespaceGoal(t, env)
  {
  }

  // The difference is enough.
  lemma PatchCompletes(env: Env, existing: Labels)
    ensures existing + LabelPatch(env, existing) == existing + EnvLabels(env, "")
  {
  }

  // A target that is not the environment's ends the pass with the status a
  // whole pass writes for it, and nothing else done.
  lemma ForeignTargetIsRun(s: Store, e: EnvKey, now: nat)
    requires e in s.records && !s.records[e].deleting && Ours in s.records[e].finalizers
    requires !NsMine(s, EnvOf(e, s.records[e]))
    ensures var go := Advance(e, Clean, Look, now);
            var after := Run(Alone(s, e), [Take(e, Clean), go, go]);
            && after.store.objects == s.objects && e in after.store.records && after.timers == {e}
            && Some(after.store.records[e].status) == FailureStatus(s, e, Some(NamespaceNotManaged), now)
  {
    var go := Advance(e, Clean, Look, now);
    RunThree(Alone(s, e), Take(e, Clean), go, go);
    hide Run, OwnedBy, TargetNamespace, Wakes, FailedStatus;
  }

  // ----- the content -----

  // Each request a pass sends about an object other than a namespace, whatever
  // becomes of it, is nothing or a move the machine permits.
  ghost predicate IsMove(s: Store, t: Store, k: Key) {
    t == s || exists o :: Permitted(s, k, o) && t == PutObject(s, k, o)
  }

  lemma RequestsAreMoves(fate: Fault, s: Store, k: Key, o: Obj, labels: Labels, body: Body, uid: Option<nat>)
    requires k.kind != Namespace
    ensures IsMove(s, StoreAfter(fate, s, Server.Create(s, k, labels, body)), k)
    ensures IsMove(s, StoreAfter(fate, s, Server.Update(s, k, o)), k)
    ensures IsMove(s, StoreAfter(fate, s, Server.Delete(s, k, uid)), k)
  {
    var created, updated, deleted := Server.Create(s, k, labels, body).store, Server.Update(s, k, o).store,
                                     Server.Delete(s, k, uid).store;
    if created != s {
      assert Permitted(s, k, ObjAt(created, k)) && created == PutObject(s, k, ObjAt(created, k));
    }
    if updated != s {
      assert Permitted(s, k, ObjAt(updated, k)) && updated == PutObject(s, k, ObjAt(updated, k));
    }
    if deleted != s {
      assert Permitted(s, k, ObjAt(deleted, k)) && deleted == PutObject(s, k, ObjAt(deleted, k));
    }
  }
}
