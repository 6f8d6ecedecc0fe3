// Whole passes are runs of the machine: whatever a pass may do to the cluster,
// cut off wherever it may be, the machine does request by request.
module Simulation {
  import opened Types
  import opened Server
  import opened Goals
  import opened Client
  import opened Steps
  import opened Passes
  import opened StatusRules
  import Convergence
  import opened Isolation
  import opened Protocol
  import opened WakeUps
  import opened Refinement

  ghost predicate Leads(from: System, to: System) {
    exists actions :: Run(from, actions) == to
  }

  lemma LeadsNowhere(sys: System)
    ensures Leads(sys, sys)
  {
    assert Run(sys, []) == sys;
  }

  lemma LeadsOn(from: System, to: System, a: Action)
    requires Leads(from, to)
    ensures Leads(from, Advanced(to, a))
  {
    var actions :| Run(from, actions) == to;
    var more := actions + [a];
    assert more[..|more| - 1] == actions;
    hide Advanced;
    assert Run(from, more) == Advanced(to, a);
  }

  // The same status, but for the cause a failure gives.
  ghost predicate SameStatus(a: Status, b: Status) {
    || a == b
    || exists status, g, now, c, d :: a == FailedStatus(status, g, c, now) && b == FailedStatus(status, g, d, now)
  }

  predicate SameRecord(a: Record, b: Record) {
    a.(version := 0, status := BLANK) == b.(version := 0, status := BLANK)
  }

  // The same cluster, up to uids, versions and the cause of a failure.
  ghost predicate Mirrors(u: Store, t: Store, e: EnvKey) {
    && (forall k :: FaceAt(u, k) == FaceAt(t, k))
    && OnlyRecord(t, u, e)
    && (e in u.records <==> e in t.records)
    && (e in t.records ==>
        SameRecord(u.records[e], t.records[e]) && SameStatus(u.records[e].status, t.records[e].status))
  }

  // ----- turns of a worker alone -----

  lemma Turned(from: System, sys: System, e: EnvKey, p: Proc, fate: Fault, choice: Choice, now: nat)
    returns (at: System)
    requires Leads(from, sys) && sys.procs == map[e := p]
    ensures Leads(from, at)
    ensures var turn := Work(sys.store, e, p, fate, choice, now);
            at.store == turn.store && at.procs == match turn.next case Goto(q) => map[e := q] case _ => map[]
  {
    at := Advanced(sys, Advance(e, fate, choice, now));
    LeadsOn(from, sys, Advance(e, fate, choice, now));
    AdvanceAlone(sys, e, p, fate, choice, now);
    hide Leads, Work, Advanced;
  }

  // The worker brings any set of objects in its namespace to what t has there,
  // as far as the namespace admits them.
  lemma MovesTo(from: System, sys: System, e: EnvKey, read: Record, keys: set<Key>, t: Store) returns (at: System)
    requires Leads(from, sys) && sys.procs == map[e := InNs(read, 0, 0)]
    requires forall k :: k in keys ==> MoveOpen(sys.store, e, read, k, t)
    ensures Leads(from, at) && at.procs == sys.procs && at.store.records == sys.store.records
    ensures at.store.fill == sys.store.fill
    ensures forall k :: ObjAt(at.store, k) == if k in keys then ObjAt(t, k) else ObjAt(sys.store, k)
    decreases keys
  {
    if keys == {} {
      at := sys;
    } else {
      var k :| k in keys;
      var next := Turned(from, sys, e, InNs(read, 0, 0), Clean, Move(k, ObjAt(t, k)), 0);
      assert MoveOpen(sys.store, e, read, k, t);
      Moved(sys.store, e, read, k, t);
      forall j | j in keys - {k} ensures MoveOpen(next.store, e, read, j, t) {
        assert MoveOpen(sys.store, e, read, j, t);
        OpenAfter(sys.store, next.store, e, read, j, k, t);
      }
      hide Leads, Work, MoveOpen;
      at := MovesTo(from, next, e, read, keys - {k}, t);
    }
  }

  predicate MoveOpen(s: Store, e: EnvKey, read: Record, k: Key, t: Store) {
    && k.kind != Namespace && k.ns == TargetNamespace(EnvOf(e, read))
    && (k in t.objects ==> k in s.objects || NsActive(s, k.ns))
  }

  lemma Moved(s: Store, e: EnvKey, read: Record, k: Key, t: Store)
    requires MoveOpen(s, e, read, k, t)
    ensures var turn := Work(s, e, InNs(read, 0, 0), Clean, Move(k, ObjAt(t, k)), 0);
            && turn.next == Goto(InNs(read, 0, 0))
            && turn.store.records == s.records && turn.store.fill == s.fill
            && (forall j :: ObjAt(turn.store, j) == if j == k then ObjAt(t, k) else ObjAt(s, j))
  {
    hide TargetNamespace;
  }

  lemma OpenAfter(s: Store, u: Store, e: EnvKey, read: Record, j: Key, k: Key, t: Store)
    requires MoveOpen(s, e, read, j, t) && k.kind != Namespace && j != k
    requires forall i :: i != k ==> ObjAt(u, i) == ObjAt(s, i)
    ensures MoveOpen(u, e, read, j, t)
  {
    assert ObjAt(u, j) == ObjAt(s, j) && ObjAt(u, NsKey(j.ns)) == ObjAt(s, NsKey(j.ns));
    hide TargetNamespace;
  }

  predicate AllHeld(s: Store, env: Env, n: nat)
    requires n <= |env.spec.services|
  {
    forall i :: 0 <= i < n ==> DeploymentHeld(s, env, env.spec.services[i])
  }

  // It looks at the services' Deployments, one after the other.
  lemma {:induction false} LooksTo(from: System, sys: System, e: EnvKey, read: Record, n: nat) returns (at: System)
    requires Leads(from, sys) && sys.procs == map[e := InNs(read, 0, 0)] && n <= |read.spec.services|
    requires AllHeld(sys.store, EnvOf(e, read), n)
    ensures Leads(from, at) && at.store == sys.store
    ensures at.procs == map[e := InNs(read, n, CountReady(sys.store, EnvOf(e, read), n))]
  {
    hide Leads, AllHeld, Work, CountReady, ReadyNow;
    if n == 0 {
      NoneCounted(sys.store, EnvOf(e, read));
      at := sys;
    } else {
      OneCounted(sys.store, EnvOf(e, read), n);
      var before := LooksTo(from, sys, e, read, n - 1);
      var ready := CountReady(sys.store, EnvOf(e, read), n - 1);
      Looked(sys.store, e, read, n - 1, ready);
      at := Turned(from, before, e, InNs(read, n - 1, ready), Clean, Look, 0);
    }
  }

  lemma NoneCounted(s: Store, env: Env)
    ensures CountReady(s, env, 0) == 0
  {
  }

  lemma OneCounted(s: Store, env: Env, n: nat)
    requires 0 < n <= |env.spec.services| && AllHeld(s, env, n)
    ensures AllHeld(s, env, n - 1) && DeploymentHeld(s, env, env.spec.services[n - 1])
    ensures CountReady(s, env, n) ==
            CountReady(s, env, n - 1) + (if ReadyNow(s, env, env.spec.services[n - 1]) then 1 else 0)
  {
    hide DeploymentHeld, ReadyNow;
  }

  lemma Looked(s: Store, e: EnvKey, read: Record, seen: nat, ready: nat)
    requires seen < |read.spec.services| && DeploymentHeld(s, EnvOf(e, read), read.spec.services[seen])
    ensures Work(s, e, InNs(read, seen, ready), Clean, Look, 0) ==
            Turn(s, Goto(InNs(read, seen + 1,
                              ready + (if ReadyNow(s, EnvOf(e, read), read.spec.services[seen]) then 1 else 0))))
  {
    hide DeploymentHeld, ReadyNow;
  }

  // It writes a status, with the record as it read it.
  lemma WritesTo(from: System, sys: System, e: EnvKey, read: Record, status: Status, again: bool) returns (at: System)
    requires Leads(from, sys) && sys.procs == map[e := WriteStatus(read, status, again)]
    requires e in sys.store.records && sys.store.records[e] == read
    ensures Leads(from, at) && at.store.objects == sys.store.objects && OnlyRecord(sys.store, at.store, e)
    ensures e in at.store.records && SameRecord(at.store.records[e], read) && at.store.records[e].status == status
  {
    hide Leads;
    at := Turned(from, sys, e, WriteStatus(read, status, again), Clean, Look, 0);
  }

  // ----- passes that stop before the namespace -----

  // The start of a pass, up to the namespace: the finalizer is on.
  lemma StartsTo(s: Store, e: EnvKey) returns (at: System)
    requires e in s.records && !s.records[e].deleting
    ensures Leads(Alone(s, e), at) && Finalized(s, at.store, e) && at.procs == map[e := GetNs(at.store.records[e])]
  {
    var from := Alone(s, e);
    var taken := Advanced(from, Take(e, Clean));
    LeadsNowhere(from);
    LeadsOn(from, from, Take(e, Clean));
    if Ours in s.records[e].finalizers {
      assert s.records[e].finalizers + {Ours} == s.records[e].finalizers;
      NothingWakes(s);
      hide Leads, Wakes;
      at := taken;
    } else {
      assert taken.store == s && taken.procs == map[e := AddFinalizer(s.records[e])] by {
        NothingWakes(s);
        hide Wakes;
      }
      hide Leads, Finalized, Wakes;
      FinalizerAdded(s, taken, e);
      LeadsOn(from, taken, Advance(e, Clean, Look, 0));
      at := Advanced(taken, Advance(e, Clean, Look, 0));
    }
  }

  // A pass that has changed no object, and written at most a failure.
  lemma EarlyPassIsRun(s: Store, t: Store, e: EnvKey) returns (at: System)
    requires Pass(s, t, e) && e in s.records && !s.records[e].deleting && t.objects == s.objects
    requires t.records[e].status == s.records[e].status || FailedBy(s.records[e], t.records[e].status)
    ensures Leads(Alone(s, e), at) && Mirrors(at.store, t, e)
  {
    hide Between, SupportFirst, NsHeld, NsMine, Writes, Leads;
    if t.records[e].status != s.records[e].status {
      at := FailsEarly(s, t, e);
    } else if t.records[e].finalizers == s.records[e].finalizers {
      LeadsNowhere(Alone(s, e));
      at := Alone(s, e);
    } else {
      at := StartsTo(s, e);
    }
  }

  ghost predicate FailedBy(r: Record, status: Status) {
    exists cause, now :: status == FailedStatus(r.status, r.generation, cause, now)
  }

  lemma FailsEarly(s: Store, t: Store, e: EnvKey) returns (at: System)
    requires Pass(s, t, e) && e in s.records && !s.records[e].deleting && t.objects == s.objects
    requires t.records[e].status != s.records[e].status && FailedBy(s.records[e], t.records[e].status)
    ensures Leads(Alone(s, e), at) && Mirrors(at.store, t, e)
  {
    hide Between, SupportFirst, NsHeld, NsMine, Writes, Leads, FailedStatus;
    var r := s.records[e];
    var cause, now :| t.records[e].status == FailedStatus(r.status, r.generation, cause, now);
    var got := StartsTo(s, e);
    var read := got.store.records[e];
    var failing := Turned(Alone(s, e), got, e, GetNs(read), Dropped, Look, now);
    var status := FailedStatus(read.status, read.generation, CallFailed(Unavailable), now);
    at := WritesTo(Alone(s, e), failing, e, read, status, true);
    assert SameStatus(status, t.records[e].status);
    assert r.finalizers + {Ours} == t.records[e].finalizers;
    hide Work, SameStatus;
  }

  // ----- passes that get into the namespace -----

  // What is to be moved: all that differs inside the namespace.
  function Differing(s: Store, t: Store, ns: string): set<Key> {
    set k | k in s.objects.Keys + t.objects.Keys && k.kind != Namespace && k.ns == ns && ObjAt(s, k) != ObjAt(t, k)
  }

  // The namespace first, and then its content.
  lemma ContentTo(s: Store, t: Store, e: EnvKey) returns (at: System)
    requires Pass(s, t, e) && e in s.records && !s.records[e].deleting
    requires NsMine(s, EnvOf(e, s.records[e])) && NsReady(s, t, EnvOf(e, s.records[e]))
    ensures Leads(Alone(s, e), at)
    ensures e in at.store.records && at.procs == map[e := InNs(at.store.records[e], 0, 0)]
    ensures forall k :: FaceAt(at.store, k) == FaceAt(t, k)
    ensures OnlyRecord(s, at.store, e)
    ensures at.store.records[e].finalizers == s.records[e].finalizers + {Ours}
    ensures at.store.records[e].(finalizers := {}, version := 0) == s.records[e].(finalizers := {}, version := 0)
  {
    var env := EnvOf(e, s.records[e]);
    var ns := TargetNamespace(env);
    var head := HeadTo(s, e);
    var read := head.store.records[e];
    assert EnvOf(e, read) == env;
    PassKeepsToItsOwn(s, t, e);
    assert Between(s, t, env);
    forall k | k in Differing(s, t, ns) ensures MoveOpen(head.store, e, read, k, t) {
      assert AdmittedAt(s, t, k) && ObjAt(head.store, k) == ObjAt(s, k);
      OpenAlike(head.store, t, ns);
      hide Goal, NsMine, Between;
    }
    hide Leads, NsMine, Pass, Between, MoveOpen, HeadDone, Goal, TargetNamespace;
    at := MovesTo(Alone(s, e), head, e, read, Differing(s, t, ns), t);
    HeadMeans(s, head.store, e);
    forall k ensures FaceAt(at.store, k) == FaceAt(t, k) {
      FaceThere(s, t, head.store, at.store, ns, k);
    }
  }

  lemma HeadTo(s: Store, e: EnvKey) returns (head: System)
    requires e in s.records && !s.records[e].deleting && NsMine(s, EnvOf(e, s.records[e]))
    ensures Leads(Alone(s, e), head) && HeadDone(s, head.store, e)
    ensures e in head.store.records && head.procs == map[e := InNs(head.store.records[e], 0, 0)]
    ensures EnvOf(e, head.store.records[e]) == EnvOf(e, s.records[e])
    ensures forall k :: k != NsKey(TargetNamespace(EnvOf(e, s.records[e]))) ==> ObjAt(head.store, k) == ObjAt(s, k)
    ensures FaceAt(head.store, NsKey(TargetNamespace(EnvOf(e, s.records[e])))) ==
            Goal(s, EnvOf(e, s.records[e]), NsKey(TargetNamespace(EnvOf(e, s.records[e]))))
  {
    var go := Advance(e, Clean, Look, 0);
    var actions := if Ours in s.records[e].finalizers then [Take(e, Clean), go, go] else [Take(e, Clean), go, go, go];
    hide Protocol.Run, Goal, NsMine, HeadDone, Leads, TargetNamespace;
    HeadIsRun(s, e);
    head := Protocol.Run(Alone(s, e), actions);
    RunLeads(Alone(s, e), actions);
    HeadMeans(s, head.store, e);
  }

  lemma RunLeads(from: System, actions: seq<Action>)
    ensures Leads(from, Protocol.Run(from, actions))
  {
    hide Protocol.Run;
  }

  lemma HeadMeans(s: Store, u: Store, e: EnvKey)
    requires e in s.records && HeadDone(s, u, e)
    ensures var k := NsKey(TargetNamespace(EnvOf(e, s.records[e])));
            && (forall j :: j != k ==> ObjAt(u, j) == ObjAt(s, j))
            && FaceAt(u, k) == Goal(s, EnvOf(e, s.records[e]), k)
    ensures OnlyRecord(s, u, e) && e in u.records && u.records[e].finalizers == s.records[e].finalizers + {Ours}
    ensures u.records[e].(finalizers := {}, version := 0) == s.records[e].(finalizers := {}, version := 0)
    ensures EnvOf(e, u.records[e]) == EnvOf(e, s.records[e])
  {
    hide Goal, TargetNamespace;
  }

  lemma OpenAlike(u: Store, t: Store, ns: string)
    requires FaceAt(u, NsKey(ns)) == FaceAt(t, NsKey(ns))
    ensures NsActive(u, ns) <==> NsActive(t, ns)
  {
  }

  lemma FaceThere(s: Store, t: Store, u: Store, v: Store, ns: string, k: Key)
    requires forall j :: j != NsKey(ns) ==> ObjAt(u, j) == ObjAt(s, j)
    requires FaceAt(u, NsKey(ns)) == FaceAt(t, NsKey(ns))
    requires ObjAt(v, k) == if k in Differing(s, t, ns) then ObjAt(t, k) else ObjAt(u, k)
    requires !Inside(k, ns) ==> ObjAt(t, k) == ObjAt(s, k)
    ensures FaceAt(v, k) == FaceAt(t, k)
  {
  }

  // ----- and their status -----

  // What is at hand when the content is in place.
  ghost predicate InPlace(s: Store, at: System, t: Store, e: EnvKey) {
    && e in s.records && e in at.store.records && at.procs == map[e := InNs(at.store.records[e], 0, 0)]
    && (forall k :: FaceAt(at.store, k) == FaceAt(t, k))
    && OnlyRecord(s, at.store, e)
    && at.store.records[e].finalizers == s.records[e].finalizers + {Ours}
    && at.store.records[e].(finalizers := {}, version := 0) == s.records[e].(finalizers := {}, version := 0)
  }

  // The pass stops there, or goes on to write t's status.
  lemma StatusMirrors(s: Store, u: Store, v: Store, t: Store, e: EnvKey, read: Record)
    requires Pass(s, t, e) && e in s.records && !s.records[e].deleting && Ours in t.records[e].finalizers
    requires OnlyRecord(s, u, e) && (forall k :: FaceAt(u, k) == FaceAt(t, k))
    requires read.finalizers == s.records[e].finalizers + {Ours}
    requires read.(finalizers := {}, version := 0) == s.records[e].(finalizers := {}, version := 0)
    requires v.objects == u.objects && OnlyRecord(u, v, e)
    requires e in v.records && SameRecord(v.records[e], read) && v.records[e].status == t.records[e].status
    ensures Mirrors(v, t, e)
  {
    hide Between, SupportFirst, NsHeld, NsMine, Writes, FailedStatus;
    assert s.records[e].finalizers + {Ours} == t.records[e].finalizers;
    forall k ensures FaceAt(v, k) == FaceAt(t, k) {
      assert FaceAt(u, k) == FaceAt(t, k);
    }
    forall f | f != e ensures RecordAt(v, f) == RecordAt(t, f) {
      assert RecordAt(v, f) == RecordAt(u, f) && RecordAt(u, f) == RecordAt(s, f) && RecordAt(t, f) == RecordAt(s, f);
    }
  }

  lemma FailsTo(s: Store, sys: System, t: Store, e: EnvKey, cause: Cause, now: nat) returns (at: System)
    requires Leads(Alone(s, e), sys) && InPlace(s, sys, t, e)
    requires Pass(s, t, e) && !s.records[e].deleting && Ours in t.records[e].finalizers
    requires t.records[e].status == FailedStatus(s.records[e].status, s.records[e].generation, cause, now)
    ensures Leads(Alone(s, e), at) && Mirrors(at.store, t, e)
  {
    var read := sys.store.records[e];
    hide Leads, Pass, FailedStatus;
    var failing := Turned(Alone(s, e), sys, e, InNs(read, 0, 0), Clean, Fail(cause), now);
    at := WritesTo(Alone(s, e), failing, e, read, FailedStatus(read.status, read.generation, cause, now), true);
    StatusMirrors(s, sys.store, at.store, t, e, read);
  }

  lemma FinishesTo(s: Store, sys: System, t: Store, e: EnvKey, w: Write) returns (at: System)
    requires Leads(Alone(s, e), sys) && InPlace(s, sys, t, e)
    requires Pass(s, t, e) && !s.records[e].deleting && Ours in t.records[e].finalizers
    requires w.WriteProvisioned? && WriteFits(e, s.records[e], w)
    requires t.records[e].status == AfterWrite(s.records[e].status, w)
    requires w.ready == CountReady(t, EnvOf(e, s.records[e]), |s.records[e].spec.services|)
    requires AllHeld(sys.store, EnvOf(e, s.records[e]), |s.records[e].spec.services|)
    ensures Leads(Alone(s, e), at) && Mirrors(at.store, t, e)
  {
    var read := sys.store.records[e];
    var n := |read.spec.services|;
    var env := EnvOf(e, read);
    assert env == EnvOf(e, s.records[e]);
    SameCountFaces(sys.store, t, env, n);
    hide Leads, Pass, ProvisionedStatus, AllHeld, CountReady;
    var looked := LooksTo(Alone(s, e), sys, e, read, n);
    var writing := Turned(Alone(s, e), looked, e, InNs(read, n, w.ready), Clean, Finish(w.problems), w.now);
    at := WritesTo(Alone(s, e), writing, e, read, AfterWrite(s.records[e].status, w), w.ready < n);
    StatusMirrors(s, sys.store, at.store, t, e, read);
  }

  lemma {:induction false} SameCountFaces(u: Store, t: Store, env: Env, n: nat)
    requires n <= |env.spec.services| && forall k :: FaceAt(u, k) == FaceAt(t, k)
    ensures CountReady(u, env, n) == CountReady(t, env, n)
  {
    if n > 0 {
      SameCountFaces(u, t, env, n - 1);
      var k := DeployKey(env, env.spec.services[n - 1].name);
      assert FaceAt(u, k) == FaceAt(t, k);
    }
  }

  // When the goal is reached every wanted Deployment bears the labels.
  lemma ReachedHeld(s: Store, t: Store, u: Store, env: Env, n: nat)
    requires Reached(s, t, env) && n <= |env.spec.services| && forall k :: FaceAt(u, k) == FaceAt(t, k)
    ensures AllHeld(u, env, n)
  {
    forall i | 0 <= i < n ensures DeploymentHeld(u, env, env.spec.services[i]) {
      var k := DeployKey(env, env.spec.services[i].name);
      assert AtGoal(s, t, env, k) && FaceAt(u, k) == FaceAt(t, k);
      Convergence.WantedLabels(s, env, k);
      StampedIsOwned(env, k.name, map[]);
      hide Goal, EnvLabels, OwnedBy;
    }
  }

  lemma StoppedMirrors(s: Store, u: Store, t: Store, e: EnvKey)
    requires Pass(s, t, e) && e in s.records && !s.records[e].deleting && Ours in t.records[e].finalizers
    requires t.records[e].status == s.records[e].status
    requires OnlyRecord(s, u, e) && (forall k :: FaceAt(u, k) == FaceAt(t, k)) && e in u.records
    requires u.records[e].finalizers == s.records[e].finalizers + {Ours}
    requires u.records[e].(finalizers := {}, version := 0) == s.records[e].(finalizers := {}, version := 0)
    ensures Mirrors(u, t, e)
  {
    StatusMirrors(s, u, u, t, e, u.records[e]);
  }

  // A pass that has got its namespace ready, or succeeded.
  lemma LatePassIsRun(s: Store, t: Store, e: EnvKey) returns (at: System)
    requires Pass(s, t, e) && e in s.records && !s.records[e].deleting
    requires NsMine(s, EnvOf(e, s.records[e])) && NsReady(s, t, EnvOf(e, s.records[e]))
    requires Ours in t.records[e].finalizers
    ensures Leads(Alone(s, e), at) && Mirrors(at.store, t, e)
  {
    var r := s.records[e];
    var status := t.records[e].status;
    var there := ContentTo(s, t, e);
    hide Leads, NsMine, NsReady, Mirrors;
    if status == r.status {
      StoppedMirrors(s, there.store, t, e);
      at := there;
    } else {
      WritesOf(s, t, e);
      var w :| status == AfterWrite(r.status, w) && WriteFits(e, r, w) && WriteTrue(s, t, e, w);
      hide Pass, ProvisionedStatus, FailedStatus;
      match w
      case WriteFailed(_, cause, now) =>
        at := FailsTo(s, there, t, e, cause, now);
      case WriteProvisioned(_, _, _, _, _, _) =>
        ReachedHeld(s, t, there.store, EnvOf(e, r), |r.spec.services|);
        hide AllHeld, Reached, Succeeds, CountReady;
        at := FinishesTo(s, there, t, e, w);
    }
  }

  lemma WritesOf(s: Store, t: Store, e: EnvKey)
    requires Pass(s, t, e) && e in s.records && !s.records[e].deleting
    ensures e in t.records && (t.records[e].status == s.records[e].status || Writes(s, t, e, t.records[e].status))
    ensures t.objects != s.objects || t.records[e].status != s.records[e].status ==> Ours in t.records[e].finalizers
    ensures t.objects != s.objects ==> NsMine(s, EnvOf(e, s.records[e])) && NsReady(s, t, EnvOf(e, s.records[e]))
  {
    hide Between, SupportFirst, Writes, NsReady, NsMine;
  }

  lemma SuccessReady(s: Store, t: Store, env: Env)
    requires Succeeds(s, env) && Reached(s, t, env)
    ensures NsMine(s, env) && NsReady(s, t, env)
  {
    assert AtGoal(s, t, env, NsKey(TargetNamespace(env)));
    Convergence.NamespaceContent(s, t, env);
    hide Goal;
  }

  // Whatever a pass for e may do to the cluster - succeeding, failing or cut
  // off after any request - the machine does with e's worker alone, up to uids
  // and versions, and the cause of a failure.
  lemma PassIsRun(s: Store, t: Store, e: EnvKey) returns (at: System)
    requires Pass(s, t, e)
    ensures Leads(Alone(s, e), at) && Mirrors(at.store, t, e)
  {
    LeadsNowhere(Alone(s, e));
    if e !in s.records {
      at := Alone(s, e);
    } else if s.records[e].deleting {
      at := DeleteIsRun(s, t, e);
    } else {
      WritesOf(s, t, e);
      var r := s.records[e];
      var status := t.records[e].status;
      hide Leads, Mirrors, Pass, NsReady, NsMine, Succeeds, Reached, FailedStatus, ProvisionedStatus, CountReady;
      if t.objects != s.objects {
        at := LatePassIsRun(s, t, e);
      } else if status == r.status {
        at := EarlyPassIsRun(s, t, e);
      } else {
        var w :| status == AfterWrite(r.status, w) && WriteFits(e, r, w) && WriteTrue(s, t, e, w);
        match w
        case WriteFailed(_, cause, now) =>
          assert FailedBy(r, status);
          at := EarlyPassIsRun(s, t, e);
        case WriteProvisioned(_, _, _, _, _, _) =>
          SuccessReady(s, t, EnvOf(e, r));
          at := LatePassIsRun(s, t, e);
      }
    }
  }

  lemma DeleteIsRun(s: Store, t: Store, e: EnvKey) returns (at: System)
    requires e in s.records && s.records[e].deleting && (t == s || t == DeleteResult(s, e))
    ensures Leads(Alone(s, e), at) && Mirrors(at.store, t, e)
  {
    LeadsNowhere(Alone(s, e));
    if t == s || Ours !in s.records[e].finalizers {
      at := Alone(s, e);
    } else {
      var go := Advance(e, Clean, Look, 0);
      DeletePassIsRun(s, e);
      at := Protocol.Run(Alone(s, e), [Take(e, Clean), go, go]);
      hide Protocol.Run, DeleteResult;
    }
  }
}
