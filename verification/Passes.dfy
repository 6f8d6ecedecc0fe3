// What a whole reconcile pass may do to the store, whatever happens to its
// requests: the relation the Reconcile method is proved to stay in.
module Passes {
  import opened Text
  import opened Types
  import opened Server
  import opened Goals
  import opened Client
  import opened Progress
  import opened Steps
  import opened Diagnosis
  import opened StatusRules

  // ----- deletion -----

  function EnvOf(e: EnvKey, r: Record): Env {
    Env(e, r.spec)
  }

  // An owned namespace is asked to go, once; when there is none, the record
  // is released.
  function DeleteResult(s: Store, e: EnvKey): Store
    requires e in s.records
  {
    var r := s.records[e];
    if Ours !in r.finalizers then s
    else if NsOwned(s, EnvOf(e, r)) then Server.Delete(s, NsKey(TargetNamespace(EnvOf(e, r))), None).store
    else UpdateFinalizers(s, e, r, r.finalizers - {Ours}).store
  }

  // ----- provisioning -----

  predicate KeepsRecord(was: Record, now: Record) {
    && (now.finalizers == was.finalizers && now.status == was.status ==> now == was)
    && now.uid == was.uid && now.generation == was.generation && now.deleting == was.deleting && now.spec == was.spec
    && (now.finalizers == was.finalizers || now.finalizers == was.finalizers + {Ours})
  }

  // A status a pass for e may write: a failure, or a success that is one, with
  // the services counted that are ready.
  ghost predicate Writes(s: Store, t: Store, e: EnvKey, status: Status)
    requires e in s.records
  {
    exists w :: status == AfterWrite(s.records[e].status, w) && WriteFits(e, s.records[e], w) && WriteTrue(s, t, e, w)
  }

  ghost predicate WriteTrue(s: Store, t: Store, e: EnvKey, w: Write)
    requires e in s.records
  {
    var env := EnvOf(e, s.records[e]);
    w.WriteProvisioned? ==> Succeeds(s, env) && Reached(s, t, env) && w.ready == CountReady(t, env, |env.spec.services|)
  }

  predicate WriteFits(e: EnvKey, r: Record, w: Write) {
    && w.generation == r.generation
    && (w.WriteProvisioned? ==>
          w.ready <= w.total && w.total == |r.spec.services| && w.target == TargetNamespace(EnvOf(e, r)))
  }

  ghost predicate ProvisionPass(s: Store, t: Store, e: EnvKey)
    requires e in s.records
  {
    var env := EnvOf(e, s.records[e]);
    && Between(s, t, env) && SupportFirst(s, t, env)
    && (!NsMine(s, env) ==> t.objects == s.objects)
    && NsHeld(s, t, env)
    && e in t.records && KeepsRecord(s.records[e], t.records[e])
    && (t.records[e].status == s.records[e].status || Writes(s, t, e, t.records[e].status))
    && (t.objects != s.objects || t.records[e].status != s.records[e].status ==> Ours in t.records[e].finalizers)
  }

  ghost predicate OnlyRecord(s: Store, t: Store, e: EnvKey) {
    t.fill == s.fill && forall j :: j != e ==> RecordAt(t, j) == RecordAt(s, j)
  }

  function RecordAt(s: Store, e: EnvKey): Option<Record> {
    if e in s.records then Some(s.records[e]) else None
  }

  // A pass for e.
  ghost predicate Pass(s: Store, t: Store, e: EnvKey) {
    && OnlyRecord(s, t, e)
    && if e !in s.records then t == s
       else if s.records[e].deleting then t == s || t == DeleteResult(s, e)
       else ProvisionPass(s, t, e)
  }

  // ----- stores with the same objects -----

  lemma SameObjectsGoal(s: Store, s': Store, env: Env, k: Key)
    requires s'.objects == s.objects && s'.fill == s.fill
    ensures Goal(s', env, k) == Goal(s, env, k)
  {
    hide EnvLabels, DeploymentBody, ServiceBody, SelectorBody, Written, CopyGoal, Prunable;
  }

  lemma SameObjectsAt(s: Store, s': Store, t: Store, env: Env, k: Key)
    requires s'.objects == s.objects && s'.fill == s.fill
    ensures StepAt(s', t, env, k) <==> StepAt(s, t, env, k)
    ensures AdmittedAt(s', t, k) <==> AdmittedAt(s, t, k)
    ensures AtGoal(s', t, env, k) <==> AtGoal(s, t, env, k)
  {
    hide Goal, Replacing, Step;
    SameObjectsGoal(s, s', env, k);
    SameObjectsReplacing(s, s', env, k);
  }

  lemma SameObjectsBetween(s: Store, s': Store, t: Store, env: Env)
    requires s'.objects == s.objects && s'.fill == s.fill
    ensures Between(s', t, env) <==> Between(s, t, env)
    ensures Reached(s', t, env) <==> Reached(s, t, env)
    ensures SupportFirst(s', t, env) <==> SupportFirst(s, t, env)
    ensures SupportSucceeds(s', env) <==> SupportSucceeds(s, env)
  {
    SameObjectsAccepted(s, s', env);
    hide SupportSucceeds, StepAt, AtGoal, AdmittedAt;
    forall k ensures StepAt(s', t, env, k) && AdmittedAt(s', t, k) <==> StepAt(s, t, env, k) && AdmittedAt(s, t, k) {
      SameObjectsAt(s, s', t, env, k);
    }
    forall k ensures AtGoal(s', t, env, k) <==> AtGoal(s, t, env, k) {
      SameObjectsAt(s, s', t, env, k);
    }
    SameWorkloads(s, s', t);
    hide WorkloadsSame;
  }

  lemma SameWorkloads(s: Store, s': Store, t: Store)
    requires s'.objects == s.objects
    ensures WorkloadsSame(s', t) <==> WorkloadsSame(s, t)
  {
    forall k ensures ObjAt(s', k) == ObjAt(s, k) {
    }
  }

  lemma SameObjectsReplacing(s: Store, s': Store, env: Env, k: Key)
    requires s'.objects == s.objects && s'.fill == s.fill
    ensures Replacing(s', env, k) <==> Replacing(s, env, k)
  {
    hide EnvLabels, ReferencedNames, PullNames;
  }

  lemma SameObjectsAccepted(s: Store, s': Store, env: Env)
    requires s'.objects == s.objects && s'.fill == s.fill
    ensures SupportSucceeds(s', env) <==> SupportSucceeds(s, env)
    ensures Succeeds(s', env) <==> Succeeds(s, env)
    ensures NsMine(s', env) <==> NsMine(s, env)
  {
    hide ReferencedNames, PullNames, OwnedBy;
    forall n, open ensures SecretAllowed(s', env, n, open) <==> SecretAllowed(s, env, n, open) {
    }
    hide SecretAllowed;
  }

  lemma SameObjectsAfter(s: Store, t: Store, t': Store, env: Env)
    requires t'.objects == t.objects && t'.fill == t.fill
    ensures Between(s, t', env) <==> Between(s, t, env)
    ensures Reached(s, t', env) <==> Reached(s, t, env)
    ensures SupportFirst(s, t', env) <==> SupportFirst(s, t, env)
  {
    forall k ensures StepAt(s, t', env, k) <==> StepAt(s, t, env, k)
      ensures AtGoal(s, t', env, k) <==> AtGoal(s, t, env, k)
      ensures AdmittedAt(s, t', k) <==> AdmittedAt(s, t, k)
    {
      hide Goal;
    }
    hide Goal, StepAt, AtGoal, AdmittedAt;
    assert forall k :: ObjAt(t', k) == ObjAt(t, k);
  }

  // ----- how the Reconcile method goes through a pass -----

  function StatusOnSuccess(e: EnvKey, r: Record, ready: nat, seen: Observation, now: nat): Status {
    ProvisionedStatus(r.status, r.generation, TargetNamespace(EnvOf(e, r)), ready, |r.spec.services|,
                      Report(r.spec.services, |r.spec.services|, seen), now)
  }

  function FailureStatus(s: Store, e: EnvKey, err: Option<Cause>, now: nat): Option<Status> {
    if e in s.records && err.Some? then Some(FailedStatus(s.records[e].status, s.records[e].generation, err.value, now))
    else None
  }

  // What a pass that reports no error has done for a record not being deleted.
  ghost predicate ProvisionSuccess(s: Store, t: Store, e: EnvKey, seen: Observation, now: nat, requeue: bool)
    requires e in s.records
  {
    var r := s.records[e];
    var env := EnvOf(e, r);
    var ready := CountReady(t, env, |r.spec.services|);
    && Succeeds(s, env) && Reached(s, t, env)
    && e in t.records && Ours in t.records[e].finalizers
    && t.records[e].status == StatusOnSuccess(e, r, ready, seen, now)
    && (requeue <==> ready < |r.spec.services|)
  }

  // When a pass that loses no request reports no error.
  ghost predicate WillSucceed(s: Store, e: EnvKey) {
    e !in s.records || s.records[e].deleting || Succeeds(s, EnvOf(e, s.records[e]))
  }

  lemma NoPass(s: Store, e: EnvKey)
    ensures Pass(s, s, e)
  {
    if e in s.records {
      Untouched(s, s, EnvOf(e, s.records[e]));
    }
  }

  lemma DeletePass(s: Store, t: Store, e: EnvKey)
    requires e in s.records && s.records[e].deleting
    requires t == s || t == DeleteResult(s, e)
    ensures Pass(s, t, e)
  {
  }

  // The finalizer is on the record, and nothing else has changed.
  ghost predicate FinalizerOn(s: Store, t: Store, e: EnvKey) {
    && e in s.records && !s.records[e].deleting
    && OnlyRecord(s, t, e) && t.objects == s.objects
    && e in t.records && KeepsRecord(s.records[e], t.records[e])
    && t.records[e].status == s.records[e].status
    && Ours in t.records[e].finalizers
  }

  lemma FinalizerPass(s: Store, t: Store, e: EnvKey)
    requires e in s.records && !s.records[e].deleting
    requires t == s || t == UpdateFinalizers(s, e, s.records[e], s.records[e].finalizers + {Ours}).store
    ensures Pass(s, t, e)
    ensures Ours in s.records[e].finalizers ||
            t == UpdateFinalizers(s, e, s.records[e], s.records[e].finalizers + {Ours}).store ==>
              FinalizerOn(s, t, e)
  {
    if Ours in s.records[e].finalizers {
      assert s.records[e].finalizers + {Ours} == s.records[e].finalizers;
    }
    Untouched(s, t, EnvOf(e, s.records[e]));
  }

  lemma EnvironmentPass(s: Store, s': Store, t: Store, e: EnvKey)
    requires FinalizerOn(s, s', e)
    requires var env := EnvOf(e, s.records[e]);
             && Between(s', t, env) && SupportFirst(s', t, env) && t.records == s'.records
             && (!NsMine(s', env) ==> t == s') && NsHeld(s', t, env)
    ensures Pass(s, t, e)
  {
    SameObjectsBetween(s, s', t, EnvOf(e, s.records[e]));
    SameObjectsAccepted(s, s', EnvOf(e, s.records[e]));
    SameObjectsGoal(s, s', EnvOf(e, s.records[e]), NsKey(TargetNamespace(EnvOf(e, s.records[e]))));
    hide Between, SupportFirst, NsMine, NsOwned, Goal;
  }

  // Writing the status touches nothing else.
  lemma StatusPass(s: Store, t: Store, u: Store, e: EnvKey, read: Record)
    requires Pass(s, t, e) && e in s.records && !s.records[e].deleting
    requires u == t || u == UpdateStatus(t, e, read, read.status).store
    requires Writes(s, t, e, read.status)
    requires e in t.records && t.records[e].status == s.records[e].status && Ours in t.records[e].finalizers
    ensures Pass(s, u, e)
    ensures u.objects == t.objects && u.fill == t.fill
  {
    SameObjectsAfter(s, t, u, EnvOf(e, s.records[e]));
    WritesAfter(s, t, u, e, read.status);
    hide Between, SupportFirst, NsMine, NsReady, Writes;
  }

  lemma WritesAfter(s: Store, t: Store, u: Store, e: EnvKey, status: Status)
    requires e in s.records && Writes(s, t, e, status) && u.objects == t.objects && u.fill == t.fill
    ensures Writes(s, u, e, status)
    ensures NsReady(s, t, EnvOf(e, s.records[e])) ==> NsReady(s, u, EnvOf(e, s.records[e]))
  {
    var env := EnvOf(e, s.records[e]);
    var w :| status == AfterWrite(s.records[e].status, w) && WriteFits(e, s.records[e], w) && WriteTrue(s, t, e, w);
    SameObjectsAfter(s, t, u, env);
    SameCount(t, u, env, |env.spec.services|);
    hide Succeeds, Reached, CountReady, Between, SupportFirst, AfterWrite, Goal;
    assert WriteTrue(s, u, e, w);
  }

  lemma SuccessWrites(s: Store, t: Store, e: EnvKey, r: Record, ready: nat, seen: Observation, now: nat)
    requires e in s.records && r.status == s.records[e].status && r.generation == s.records[e].generation
    requires r.spec == s.records[e].spec
    requires var env := EnvOf(e, s.records[e]);
             Succeeds(s, env) && Reached(s, t, env) && ready == CountReady(t, env, |env.spec.services|)
    ensures Writes(s, t, e, StatusOnSuccess(e, r, ready, seen, now))
  {
    hide Succeeds, Reached, CountReady, Report;
    var w := WriteProvisioned(r.generation, TargetNamespace(EnvOf(e, r)), ready, |r.spec.services|,
                              Report(r.spec.services, |r.spec.services|, seen), now);
    assert AfterWrite(s.records[e].status, w) == StatusOnSuccess(e, r, ready, seen, now);
    assert WriteTrue(s, t, e, w);
  }

  lemma FailureWrites(s: Store, t: Store, e: EnvKey, cause: Cause, now: nat)
    requires e in s.records
    ensures Writes(s, t, e, FailedStatus(s.records[e].status, s.records[e].generation, cause, now))
  {
    var r := s.records[e];
    assert AfterWrite(r.status, WriteFailed(r.generation, cause, now)) ==
           FailedStatus(r.status, r.generation, cause, now);
    assert WriteTrue(s, t, e, WriteFailed(r.generation, cause, now));
  }

  // With nobody else writing, the status is written to the record as it was
  // read.
  lemma StatusLands(t: Store, e: EnvKey, read: Record)
    requires e in t.records && read == t.records[e].(status := read.status)
    ensures var reply := UpdateStatus(t, e, read, read.status);
            && reply.outcome.Ok?
            && reply.store.objects == t.objects && reply.store.fill == t.fill
            && e in reply.store.records && reply.store.records[e].status == read.status
            && reply.store.records[e].finalizers == t.records[e].finalizers
  {
  }

  lemma FinalizerLands(s: Store, e: EnvKey)
    requires e in s.records && !s.records[e].deleting && Ours !in s.records[e].finalizers
    ensures UpdateFinalizers(s, e, s.records[e], s.records[e].finalizers + {Ours}).outcome.Ok?
  {
  }

  lemma StaysValid(s: Store, t: Store)
    requires Valid(s) && t.objects == s.objects && t.fill == s.fill
    ensures Valid(t)
  {
  }

  lemma SuccessPass(s: Store, s': Store, t: Store, u: Store, e: EnvKey)
    requires FinalizerOn(s, s', e) && u.objects == t.objects && u.fill == t.fill
    requires SupportSucceeds(s', EnvOf(e, s.records[e])) && Reached(s', t, EnvOf(e, s.records[e]))
    ensures SupportSucceeds(s, EnvOf(e, s.records[e])) && Reached(s, u, EnvOf(e, s.records[e]))
    ensures CountReady(u, EnvOf(e, s.records[e]), |s.records[e].spec.services|) ==
            CountReady(t, EnvOf(e, s.records[e]), |s.records[e].spec.services|)
  {
    var env := EnvOf(e, s.records[e]);
    SameObjectsBetween(s, s', u, env);
    SameObjectsAfter(s', t, u, env);
    SameCount(t, u, env, |env.spec.services|);
  }

  lemma {:induction false} SameCount(t: Store, u: Store, env: Env, n: nat)
    requires u.objects == t.objects && n <= |env.spec.services|
    ensures CountReady(u, env, n) == CountReady(t, env, n)
  {
    if n > 0 {
      SameCount(t, u, env, n - 1);
    }
  }

  lemma SucceedsSame(s: Store, s': Store, e: EnvKey)
    requires FinalizerOn(s, s', e)
    ensures Succeeds(s', EnvOf(e, s.records[e])) <==> Succeeds(s, EnvOf(e, s.records[e]))
  {
    SameObjectsAccepted(s, s', EnvOf(e, s.records[e]));
  }
}
