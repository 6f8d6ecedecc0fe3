// Crash and retry: passes cut off at any request, any number of times, change
// nothing about where a successful pass ends, and a finished pass has nothing
// left to write.
module Retry {
  import opened Text
  import opened Types
  import opened Server
  import opened Goals
  import opened Progress
  import opened Steps
  import opened Passes
  import opened Diagnosis
  import opened StatusRules

  // Passes for e one after the other, each cut off wherever it may be.
  ghost predicate Attempts(stores: seq<Store>, e: EnvKey) {
    forall i :: 0 <= i < |stores| - 1 ==> Pass(stores[i], stores[i + 1], e)
  }

  ghost predicate Live(s: Store, e: EnvKey) {
    Fills(s.fill) && e in s.records && !s.records[e].deleting
  }

  lemma AttemptKeeps(s: Store, t: Store, e: EnvKey)
    requires Live(s, e) && Pass(s, t, e)
    ensures Live(t, e) && t.fill == s.fill && EnvOf(e, t.records[e]) == EnvOf(e, s.records[e])
    ensures t.records[e].generation == s.records[e].generation
    ensures Between(s, t, EnvOf(e, s.records[e]))
    ensures t.records[e].status == s.records[e].status || Writes(s, t, e, t.records[e].status)
  {
    hide Fills, Writes;
  }

  // However many attempts there have been, the goal is where it was.
  lemma {:induction false} AttemptsKeep(stores: seq<Store>, e: EnvKey, n: nat)
    requires Attempts(stores, e) && n < |stores| && Live(stores[0], e)
    ensures Live(stores[n], e) && EnvOf(e, stores[n].records[e]) == EnvOf(e, stores[0].records[e])
    ensures Between(stores[0], stores[n], EnvOf(e, stores[0].records[e]))
  {
    if n == 0 {
      Untouched(stores[0], stores[0], EnvOf(e, stores[0].records[e]));
    } else {
      AttemptsKeep(stores, e, n - 1);
      assert Pass(stores[n - 1], stores[n - 1 + 1], e);
      AttemptKeeps(stores[n - 1], stores[n], e);
      hide Pass, Between;
      Composes(stores[0], stores[n - 1], stores[n], EnvOf(e, stores[0].records[e]));
    }
  }

  // ----- what success takes survives an attempt -----

  // The copy a pass wants is owned and of its source's type.
  lemma CopyWanted(s: Store, env: Env, name: string, open: bool)
    requires Fills(s.fill) && name in ReferencedNames(env.spec) && SecretAllowed(s, env, name, open)
    ensures var goal := Goal(s, env, CopyKey(env, name));
            goal.Some? && OwnedBy(goal.value.labels, env.key) &&
              TypeOf(goal.value.body) == TypeOf(SourceBody(s, env, name))
  {
    var src := s.objects[SourceKey(env, name)].body;
    CopyKeyGoal(s, env, name);
    CopyAgrees(s.fill, env, TypeOf(src), DataOf(src), FaceAt(s, CopyKey(env, name)));
    CopyAgrees(s.fill, env, TypeOf(src), DataOf(src), None);
    hide Goal, Fills, Written, EnvLabels, OwnedBy, ReferencedNames;
  }

  lemma CopyStaysAllowed(s: Store, t: Store, env: Env, name: string, open: bool)
    requires Fills(s.fill) && Between(s, t, env) && name in ReferencedNames(env.spec)
    requires SecretAllowed(s, env, name, open)
    ensures SecretAllowed(t, env, name, open)
  {
    SourceKept(s, t, env, name);
    CopyWanted(s, env, name, open);
    assert StepAt(s, t, env, CopyKey(env, name));
    hide Goal, CopyGoal, Between, Fills, OwnedBy, ReferencedNames;
  }

  lemma NamespaceStays(s: Store, t: Store, env: Env)
    requires Between(s, t, env) && NsMine(s, env)
    ensures NsMine(t, env) && (NsOpen(t, env) <==> NsOpen(s, env))
  {
    var k := NsKey(TargetNamespace(env));
    assert StepAt(s, t, env, k);
    StampedIsOwned(env, "", map[]);
    if k in s.objects {
      StampedIsOwned(env, "", s.objects[k].labels);
    }
    hide EnvLabels, OwnedBy;
  }

  lemma AllowedStays(s: Store, t: Store, env: Env, k: Key)
    requires Between(s, t, env) && Allowed(s, env, k) && (NsOpen(t, env) <==> NsOpen(s, env))
    requires Goal(s, env, k).Some? && k.kind != Secret
    ensures Allowed(t, env, k)
  {
    assert StepAt(s, t, env, k);
    hide Goal;
  }

  lemma WantedAsked(s: Store, env: Env)
    ensures env.spec.config != map[] ==> Goal(s, env, ConfigKey(env)).Some?
    ensures env.spec.storage.Some? ==> Goal(s, env, ClaimKey(env)).Some?
    ensures forall i :: 0 <= i < |env.spec.services| ==>
              && Goal(s, env, DeployKey(env, env.spec.services[i].name)).Some?
              && Goal(s, env, ServiceKey(env, env.spec.services[i].name)).Some?
  {
    forall i | 0 <= i < |env.spec.services|
      ensures && Goal(s, env, DeployKey(env, env.spec.services[i].name)).Some?
              && Goal(s, env, ServiceKey(env, env.spec.services[i].name)).Some?
    {
      assert HasService(env.spec, env.spec.services[i].name);
      WantedGoalStamped(s, env, DeployKey(env, env.spec.services[i].name));
      WantedGoalStamped(s, env, ServiceKey(env, env.spec.services[i].name));
      hide Goal;
    }
    hide WorkloadGoal, SecretGoal, Written, EnvLabels, ClaimBody, ConfigBody;
  }

  // A pass that could have succeeded can still be retried to success after
  // being cut off anywhere.
  lemma RetryCanSucceed(s: Store, t: Store, env: Env)
    requires Fills(s.fill) && Between(s, t, env) && Succeeds(s, env)
    ensures Succeeds(t, env)
  {
    NamespaceStays(s, t, env);
    WantedAsked(s, env);
    hide Goal, Fills, NsMine, NsOpen, SecretAllowed, ReferencedNames;
    if env.spec.config != map[] {
      AllowedStays(s, t, env, ConfigKey(env));
    }
    if env.spec.storage.Some? {
      AllowedStays(s, t, env, ClaimKey(env));
    }
    forall i | 0 <= i < |env.spec.services| ensures ServiceAllowed(t, env, env.spec.services[i].name) {
      AllowedStays(s, t, env, DeployKey(env, env.spec.services[i].name));
      AllowedStays(s, t, env, ServiceKey(env, env.spec.services[i].name));
    }
    hide Between, Allowed;
    forall n | n in ReferencedNames(env.spec) ensures SecretAllowed(t, env, n, NsOpen(t, env)) {
      CopyStaysAllowed(s, t, env, n, NsOpen(s, env));
    }
  }

  // ----- the same end -----

  // Stores with the same objects up to uids and versions.
  ghost predicate SameFaces(s: Store, t: Store) {
    forall k :: FaceAt(s, k) == FaceAt(t, k)
  }

  lemma SameEnd(s: Store, t: Store, u: Store, v: Store, env: Env)
    requires Fills(s.fill) && Between(s, t, env) && Reached(t, u, env) && Reached(s, v, env)
    ensures SameFaces(u, v)
  {
    forall k ensures FaceAt(u, k) == FaceAt(v, k) {
      assert AtGoal(t, u, env, k) && AtGoal(s, v, env, k);
      GoalStable(s, t, env, k);
    }
  }

  lemma {:induction false} SameReady(u: Store, v: Store, env: Env, n: nat)
    requires SameFaces(u, v) && n <= |env.spec.services|
    ensures CountReady(u, env, n) == CountReady(v, env, n)
  {
    if n > 0 {
      SameReady(u, v, env, n - 1);
      var k := DeployKey(env, env.spec.services[n - 1].name);
      assert FaceAt(u, k) == FaceAt(v, k);
    }
  }

  // ----- the same status -----

  function Ageless(status: Status): Status {
    status.(conditions := Timeless(status.conditions))
  }

  // The same write at another time.
  function At(w: Write, now: nat): Write {
    match w
    case WriteProvisioned(g, target, ready, total, problems, _) =>
      WriteProvisioned(g, target, ready, total, problems, now)
    case WriteFailed(g, cause, _) => WriteFailed(g, cause, now)
  }

  lemma AgelessWrite(status: Status, w: Write)
    ensures var c := Timeless(status.conditions);
            Timeless(AfterWrite(status, w).conditions) ==
            match w
            case WriteProvisioned(g, _, ready, total, problems, _) =>
              Upsert(Upsert(Upsert(c, AvailableNow(g, ready, total, 0)), ProgressingNow(g, ready, total, problems, 0)),
                     DegradedNow(g, ready, total, problems, 0))
            case WriteFailed(g, cause, _) =>
              Upsert(Upsert(Upsert(c, Cond(Available, False, ProvisioningFailed, Failure(cause), g, 0)),
                            Cond(Progressing, False, ProvisioningFailed, Failure(cause), g, 0)),
                     Cond(Degraded, True, ReconcileFailed, Failure(cause), g, 0))
  {
    match w
    case WriteProvisioned(g, _, ready, total, problems, now) =>
      ThreeTimeless(status.conditions, AvailableNow(g, ready, total, now),
                    ProgressingNow(g, ready, total, problems, now),
                    DegradedNow(g, ready, total, problems, now));
    case WriteFailed(g, cause, now) =>
      ThreeTimeless(status.conditions, Cond(Available, False, ProvisioningFailed, Failure(cause), g, now),
                    Cond(Progressing, False, ProvisioningFailed, Failure(cause), g, now),
                    Cond(Degraded, True, ReconcileFailed, Failure(cause), g, now));
  }

  // The last success alone decides the status, whatever was written before it
  // and whenever it was written.
  lemma LastSuccessDecides(status: Status, before: Write, w: Write, w': Write)
    requires w.WriteProvisioned? && w' == At(w, w'.now)
    ensures Ageless(AfterWrite(AfterWrite(status, before), w)) == Ageless(AfterWrite(status, w'))
  {
    AgelessWrite(status, before);
    AgelessWrite(AfterWrite(status, before), w);
    AgelessWrite(status, w');
    var c := Timeless(status.conditions);
    var a, p, d := AvailableNow(w.generation, w.ready, w.total, 0),
                   ProgressingNow(w.generation, w.ready, w.total, w.problems, 0),
                   DegradedNow(w.generation, w.ready, w.total, w.problems, 0);
    hide Upsert;
    match before
    case WriteProvisioned(g, _, ready, total, problems, _) =>
      OverwritesThree(c, AvailableNow(g, ready, total, 0), ProgressingNow(g, ready, total, problems, 0),
                      DegradedNow(g, ready, total, problems, 0), a, p, d);
    case WriteFailed(g, cause, _) =>
      OverwritesThree(c, Cond(Available, False, ProvisioningFailed, Failure(cause), g, 0),
                      Cond(Progressing, False, ProvisioningFailed, Failure(cause), g, 0),
                      Cond(Degraded, True, ReconcileFailed, Failure(cause), g, 0), a, p, d);
  }

  lemma AgelessDecides(a: Status, b: Status, w: Write, w': Write)
    requires w.WriteProvisioned? && w' == At(w, w'.now) && Timeless(a.conditions) == Timeless(b.conditions)
    ensures Ageless(AfterWrite(a, w)) == Ageless(AfterWrite(b, w'))
  {
    AgelessWrite(a, w);
    AgelessWrite(b, w');
  }

  // However many attempts wrote a status before, the success that ends them
  // leaves the status it would have left at the start.
  lemma {:induction false} AttemptsLeaveNoTrace(stores: seq<Store>, e: EnvKey, n: nat, w: Write, w': Write)
    requires Attempts(stores, e) && n < |stores| && Live(stores[0], e)
    requires w.WriteProvisioned? && w' == At(w, w'.now)
    ensures e in stores[n].records
    ensures Ageless(AfterWrite(stores[n].records[e].status, w)) == Ageless(AfterWrite(stores[0].records[e].status, w'))
  {
    AttemptsKeep(stores, e, n);
    if n == 0 {
      AgelessDecides(stores[0].records[e].status, stores[0].records[e].status, w, w');
    } else {
      AttemptsLeaveNoTrace(stores, e, n - 1, w', w');
      AttemptsKeep(stores, e, n - 1);
      var was := stores[n - 1].records[e].status;
      assert Pass(stores[n - 1], stores[n - 1 + 1], e);
      AttemptKeeps(stores[n - 1], stores[n], e);
      hide Pass, Between, AfterWrite, Ageless;
      if stores[n].records[e].status == was {
        AgelessDecides(was, was, w, w');
      } else {
        var before :| stores[n].records[e].status == AfterWrite(was, before) &&
          WriteFits(e, stores[n - 1].records[e], before);
        LastSuccessDecides(was, before, w, w');
      }
    }
  }

  // ----- crash and retry -----

  // Cut passes for e off anywhere, any number of times, and then let one
  // succeed: the objects are those of a pass that succeeded at once, up to
  // uids and versions, and so is the status, up to transition times.
  lemma CrashAndRetry(stores: seq<Store>, e: EnvKey, u: Store, v: Store, seen: Observation, now: nat, now': nat,
                      again: bool, again': bool)
    requires |stores| > 0 && Attempts(stores, e) && Live(stores[0], e)
    requires var s, t := stores[0], stores[|stores| - 1];
             && Pass(s, v, e) && ProvisionSuccess(s, v, e, seen, now', again')
             && e in t.records && Pass(t, u, e) && ProvisionSuccess(t, u, e, seen, now, again)
    ensures SameFaces(u, v)
    ensures e in u.records && e in v.records
    ensures Ageless(u.records[e].status) == Ageless(v.records[e].status)
    ensures again == again'
  {
    var n := |stores| - 1;
    var s, t := stores[0], stores[n];
    var env := EnvOf(e, s.records[e]);
    AttemptsKeep(stores, e, n);
    hide Pass, Between, Reached, Succeeds, ProvisionedStatus, Report, CountReady;
    SameEnd(s, t, u, v, env);
    SameReady(u, v, env, |env.spec.services|);
    GenerationKept(stores, e, n);
    var r := s.records[e];
    var ready := CountReady(v, env, |env.spec.services|);
    var problems := Report(r.spec.services, |r.spec.services|, seen);
    var w := WriteProvisioned(r.generation, TargetNamespace(env), ready, |r.spec.services|, problems, now);
    AttemptsLeaveNoTrace(stores, e, n, w, At(w, now'));
    hide Ageless, Attempts;
  }

  lemma {:induction false} GenerationKept(stores: seq<Store>, e: EnvKey, n: nat)
    requires Attempts(stores, e) && n < |stores| && Live(stores[0], e)
    ensures e in stores[n].records && stores[n].records[e].generation == stores[0].records[e].generation
  {
    AttemptsKeep(stores, e, n);
    if n > 0 {
      GenerationKept(stores, e, n - 1);
      AttemptsKeep(stores, e, n - 1);
      assert Pass(stores[n - 1], stores[n - 1 + 1], e);
      AttemptKeeps(stores[n - 1], stores[n], e);
    }
  }

  // ----- nothing left to write -----

  lemma UpsertSame(c: seq<Condition>, x: Condition)
    requires Find(c, x.kind).Some? && Find(c, x.kind).value.(since := x.since) == x
    ensures Upsert(c, x) == c
  {
    if c[0].kind != x.kind {
      UpsertSame(c[1..], x);
    }
  }

  // Writing a success again changes nothing, whenever it is done.
  lemma WrittenTwice(status: Status, w: Write, now: nat)
    requires w.WriteProvisioned?
    ensures AfterWrite(AfterWrite(status, w), At(w, now)) == AfterWrite(status, w)
  {
    var a, p, d := AvailableNow(w.generation, w.ready, w.total, w.now),
                   ProgressingNow(w.generation, w.ready, w.total, w.problems, w.now),
                   DegradedNow(w.generation, w.ready, w.total, w.problems, w.now);
    var c1 := Upsert(status.conditions, a);
    var c2 := Upsert(c1, p);
    var c3 := Upsert(c2, d);
    UpsertFinds(status.conditions, a, Available);
    UpsertFinds(c1, p, Available);
    UpsertFinds(c1, p, Progressing);
    UpsertFinds(c2, d, Available);
    UpsertFinds(c2, d, Progressing);
    UpsertFinds(c2, d, Degraded);
    UpsertSame(c3, a.(since := now));
    UpsertSame(c3, p.(since := now));
    UpsertSame(c3, d.(since := now));
    hide Upsert, Find;
  }

  // Once a pass has reached the goal, no later pass touches an object, cut
  // off or not; and if it sees what the last one saw, it does not touch the
  // record either. Not even versions move.
  lemma FinishedWritesNothing(s: Store, t: Store, u: Store, e: EnvKey, seen: Observation, now: nat, now': nat,
                              again: bool, again': bool)
    requires Live(s, e) && Pass(s, t, e) && ProvisionSuccess(s, t, e, seen, now, again)
    requires Pass(t, u, e)
    ensures forall k :: ObjAt(u, k) == ObjAt(t, k)
    ensures e in t.records && (ProvisionSuccess(t, u, e, seen, now', again') ==> u.records == t.records)
  {
    AttemptKeeps(s, t, e);
    AttemptKeeps(t, u, e);
    var env := EnvOf(e, s.records[e]);
    forall k ensures ObjAt(u, k) == ObjAt(t, k) {
      assert AtGoal(s, t, env, k);
      hide Goal, Fills, Between, Succeeds;
      StaysReached(s, t, u, env, k);
    }
    if ProvisionSuccess(t, u, e, seen, now', again') {
      StatusSettles(s, t, u, e, seen, now, now', again, again');
      RecordSettles(t, u, e);
    }
  }

  lemma StatusSettles(s: Store, t: Store, u: Store, e: EnvKey, seen: Observation, now: nat, now': nat, again: bool,
                      again': bool)
    requires Live(s, e) && Pass(s, t, e) && ProvisionSuccess(s, t, e, seen, now, again)
    requires e in t.records && ProvisionSuccess(t, u, e, seen, now', again')
    requires forall k :: ObjAt(u, k) == ObjAt(t, k)
    ensures e in u.records && u.records[e].status == t.records[e].status
  {
    AttemptKeeps(s, t, e);
    var r := s.records[e];
    var env := EnvOf(e, r);
    SameReady(u, t, env, |env.spec.services|);
    var w := WriteProvisioned(r.generation, TargetNamespace(env), CountReady(t, env, |r.spec.services|),
                              |r.spec.services|,
                              Report(r.spec.services, |r.spec.services|, seen), now);
    WrittenTwice(r.status, w, now');
    hide Pass, Between, Reached, Succeeds, ProvisionedStatus, Report, CountReady, Fills;
    assert t.records[e].status == AfterWrite(r.status, w);
  }

  lemma RecordSettles(t: Store, u: Store, e: EnvKey)
    requires Live(t, e) && Pass(t, u, e) && e in u.records
    requires u.records[e].status == t.records[e].status && Ours in t.records[e].finalizers
    ensures u.records == t.records
  {
    hide Between, SupportFirst, Fills, Writes, NsMine;
    assert t.records[e].finalizers + {Ours} == t.records[e].finalizers;
    forall j ensures RecordAt(u, j) == RecordAt(t, j) {
    }
    assert forall j :: j in u.records <==> RecordAt(u, j).Some?;
    assert forall j :: j in t.records <==> RecordAt(t, j).Some?;
  }
}
