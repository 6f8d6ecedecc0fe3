// What one request at a time does to isolation: exactly when a worker's turn
// leaves the namespaces of others alone, and runs on which it does not.
module Atomicity {
  import opened Text
  import opened Types
  import opened Server
  import opened Client
  import opened Passes
  import opened Isolation
  import opened StatusRules
  import opened Protocol
  import opened NoOrphan

  // ----- the exact condition -----

  predicate ClaimedByOther(s: Store, ns: string, e: EnvKey) {
    && NsKey(ns) in s.objects
    && ClaimedBy(s.objects[NsKey(ns)].labels).Some?
    && ClaimedBy(s.objects[NsKey(ns)].labels) != Some(e)
  }

  ghost predicate SameInside(s: Store, t: Store, ns: string) {
    forall k :: Inside(k, ns) ==> ObjAt(t, k) == ObjAt(s, k)
  }

  // Every namespace of another environment is left as it is, with all in it.
  ghost predicate SparesOthers(s: Store, t: Store, e: EnvKey) {
    forall ns :: ClaimedByOther(s, ns, e) ==> SameInside(s, t, ns)
  }

  function TargetFor(e: EnvKey, p: Proc): string {
    TargetNamespace(EnvOf(e, p.read))
  }

  // The turns that reach into another's namespace: the target is claimed for
  // another by now, and the request that is sent without asking again changes
  // something.
  ghost predicate Trespasses(s: Store, e: EnvKey, p: Proc, fate: Fault, choice: Choice) {
    var ns := TargetFor(e, p);
    ClaimedByOther(s, ns, e) &&
    match p
    case DeleteNs(_) => fate != Dropped && !s.objects[NsKey(ns)].terminating
    case PatchNs(_, delta) =>
      fate != Dropped && s.objects[NsKey(ns)].labels + delta != s.objects[NsKey(ns)].labels
    case InNs(_, _, _) =>
      choice.Move? && choice.k.ns == ns && Permitted(s, choice.k, choice.o) && ObjAt(s, choice.k) != choice.o
    case _ => false
  }

  // Only one key has changed, and it is inside the target.
  lemma OneInside(s: Store, t: Store, e: EnvKey, ns: string, k: Key)
    requires Inside(k, ns) && forall j :: j != k ==> ObjAt(t, j) == ObjAt(s, j)
    ensures SparesOthers(s, t, e) <==> (ClaimedByOther(s, ns, e) ==> ObjAt(t, k) == ObjAt(s, k))
  {
    hide ClaimedBy;
    if ClaimedByOther(s, ns, e) && ObjAt(t, k) != ObjAt(s, k) {
      assert !SameInside(s, t, ns);
    }
  }

  lemma NothingInside(s: Store, t: Store, e: EnvKey)
    requires t.objects == s.objects
    ensures SparesOthers(s, t, e)
  {
  }

  lemma NsTurnSpares(s: Store, e: EnvKey, p: Proc, fate: Fault, choice: Choice, now: nat)
    requires p.CreateNs? || p.PatchNs? || p.DeleteNs?
    ensures SparesOthers(s, Work(s, e, p, fate, choice, now).store, e) <==> !Trespasses(s, e, p, fate, choice)
  {
    hide FailedStatus, EnvLabels, ClaimedBy, TargetNamespace, SparesOthers;
    OneInside(s, Work(s, e, p, fate, choice, now).store, e, TargetFor(e, p), NsKey(TargetFor(e, p)));
  }

  lemma MoveSpares(s: Store, e: EnvKey, p: Proc, fate: Fault, choice: Choice, now: nat)
    requires p.InNs?
    ensures SparesOthers(s, Work(s, e, p, fate, choice, now).store, e) <==> !Trespasses(s, e, p, fate, choice)
  {
    hide FailedStatus, ProvisionedStatus, ClaimedBy, TargetNamespace, SparesOthers, NsActive;
    if choice.Move? && choice.k.ns == TargetFor(e, p) && Permitted(s, choice.k, choice.o) {
      OneInside(s, Work(s, e, p, fate, choice, now).store, e, TargetFor(e, p), choice.k);
    } else {
      NothingInside(s, Work(s, e, p, fate, choice, now).store, e);
    }
  }

  // A worker's turn leaves every other environment's record alone, and its
  // namespace with all in it exactly when it does not trespass.
  lemma TurnSparesExactly(s: Store, e: EnvKey, p: Proc, fate: Fault, choice: Choice, now: nat)
    ensures forall f :: f != e ==> RecordAt(Work(s, e, p, fate, choice, now).store, f) == RecordAt(s, f)
    ensures SparesOthers(s, Work(s, e, p, fate, choice, now).store, e) <==> !Trespasses(s, e, p, fate, choice)
  {
    OthersRecords(s, e, p, fate, choice, now);
    if p.CreateNs? || p.PatchNs? || p.DeleteNs? {
      hide Work, Trespasses, SparesOthers;
      NsTurnSpares(s, e, p, fate, choice, now);
    } else if p.InNs? {
      hide Work, Trespasses, SparesOthers;
      MoveSpares(s, e, p, fate, choice, now);
    } else {
      hide FailedStatus, LabelPatch, OwnedBy, ClaimedBy, TargetNamespace, SparesOthers;
      NothingInside(s, Work(s, e, p, fate, choice, now).store, e);
    }
  }

  lemma OthersRecords(s: Store, e: EnvKey, p: Proc, fate: Fault, choice: Choice, now: nat)
    ensures forall f :: f != e ==> RecordAt(Work(s, e, p, fate, choice, now).store, f) == RecordAt(s, f)
  {
    hide FailedStatus, ProvisionedStatus, LabelPatch, OwnedBy, Permitted, TargetNamespace, EnvLabels;
  }

  // controller.go:712, for the delete that is sent: it spares the others
  // exactly when the namespace by then of that name is gone, going, nobody's
  // or still the environment's own.
  lemma DeleteSparesExactly(s: Store, e: EnvKey, p: Proc, now: nat)
    requires p.DeleteNs?
    ensures var k := NsKey(TargetFor(e, p));
            SparesOthers(s, Work(s, e, p, Clean, Look, now).store, e) <==>
            (k in s.objects && !s.objects[k].terminating ==>
               ClaimedBy(s.objects[k].labels) == None || ClaimedBy(s.objects[k].labels) == Some(e))
  {
    hide Work, SparesOthers, ClaimedBy;
    TurnSparesExactly(s, e, p, Clean, Look, now);
  }

  // controller.go:209-238: a worker that creates or patches the namespace goes
  // on into one claimed for another exactly when its request is answered and
  // the namespace is another's by then.
  lemma EntersExactly(s: Store, e: EnvKey, p: Proc, fate: Fault, choice: Choice, now: nat)
    requires p.CreateNs? || (p.PatchNs? && NoOwnership(p.delta))
    ensures var turn := Work(s, e, p, fate, choice, now);
            (turn.next == Goto(InNs(p.read, 0, 0)) && ClaimedByOther(turn.store, TargetFor(e, p), e)) <==>
            (fate == Clean && ClaimedByOther(s, TargetFor(e, p), e))
  {
    StampedIsOwned(EnvOf(e, p.read), "", map[]);
    ClaimIsOwnership(EnvLabels(EnvOf(e, p.read), ""), e);
    hide FailedStatus, EnvLabels, OwnedBy, TargetNamespace;
  }

  // ----- a condition on the records -----

  // No other stored record asks for the namespace e's worker works on.
  ghost predicate SoleTarget(sys: System, e: EnvKey)
    requires e in sys.procs
  {
    forall f :: f in sys.store.records && f != e ==>
      TargetNamespace(EnvOf(f, sys.store.records[f])) != TargetFor(e, sys.procs[e])
  }

  // A namespace that is another's has another's record behind it.
  lemma SoleTargetUnclaimed(sys: System, e: EnvKey)
    requires Safe(sys) && e in sys.procs && SoleTarget(sys, e)
    ensures !ClaimedByOther(sys.store, TargetFor(e, sys.procs[e]), e)
  {
    hide ClaimedBy, TargetNamespace, Standing;
  }

  // As long as that is so, every turn of the worker leaves the others alone,
  // whatever it has read, does and loses.
  lemma SoleTargetSpares(sys: System, e: EnvKey, fate: Fault, choice: Choice, now: nat)
    requires Reachable(sys) && e in sys.procs && SoleTarget(sys, e)
    ensures var after := Advanced(sys, Advance(e, fate, choice, now));
            && SparesOthers(sys.store, after.store, e)
            && forall f :: f != e ==> RecordAt(after.store, f) == RecordAt(sys.store, f)
  {
    ReachableSafe(sys);
    hide Reachable, Safe, SoleTarget, SparesOthers, ClaimedByOther, Work, Wakes;
    SoleTargetUnclaimed(sys, e);
    TurnSparesExactly(sys.store, e, sys.procs[e], fate, choice, now);
  }

  // ----- runs on which it happens -----

  // A cluster the controller is new to, with two records that ask for the same
  // namespace, which is not there.
  ghost predicate Rivals(sys: System, e: EnvKey, f: EnvKey, ns: string) {
    && Initial(sys) && e != f
    && Fresh(sys.store, e, ns) && Fresh(sys.store, f, ns)
    && NsKey(ns) !in sys.store.objects && Content(sys.store, ns) == {}
  }

  predicate Fresh(s: Store, e: EnvKey, ns: string) {
    && e in s.records && !s.records[e].deleting && Ours !in s.records[e].finalizers
    && TargetNamespace(EnvOf(e, s.records[e])) == ns
  }

  lemma RivalsExist() returns (sys: System, e: EnvKey, f: EnvKey)
    ensures Rivals(sys, e, f, "dev")
  {
    e, f := EnvKey("team", "a"), EnvKey("team", "b");
    var r := Record(0, 0, 1, false, {}, EnvSpec("dev", "", None, "", [], [], map[]), BLANK);
    var s := Store(map[e := r, f := r], map[], 0, (kind, body) => body);
    sys := System(s, s.records.Keys, {}, map[]);
  }

  // What has not changed from sys to at for anybody but e and outside one
  // namespace's own key.
  ghost predicate Apart(sys: System, at: System, e: EnvKey, ns: string) {
    && sys.store.clock <= at.store.clock
    && (forall f :: f != e ==> RecordAt(at.store, f) == RecordAt(sys.store, f))
    && (forall k :: k != NsKey(ns) ==> ObjAt(at.store, k) == ObjAt(sys.store, k))
    && (forall f :: f != e ==> (f in at.procs <==> f in sys.procs) && (f in sys.procs ==> at.procs[f] == sys.procs[f]))
    && (forall f :: f != e && f in sys.queue ==> f in at.queue)
  }

  lemma ApartOn(a: System, b: System, c: System, e: EnvKey, ns: string)
    requires Apart(a, b, e, ns) && Apart(b, c, e, ns)
    ensures Apart(a, c, e, ns)
  {
  }

  lemma TakeApart(sys: System, e: EnvKey, ns: string) returns (at: System)
    requires Reachable(sys) && e in sys.queue && e !in sys.procs && e in sys.store.records
    requires Start(sys.store, e, Clean).Goto?
    ensures Reachable(at) && Apart(sys, at, e, ns) && at.store == sys.store
    ensures e in at.procs && at.procs[e] == Start(sys.store, e, Clean).proc
  {
    at := Advanced(sys, Take(e, Clean));
    ReachableOn(sys, Take(e, Clean));
    hide Reachable, Start, Wakes;
  }

  lemma TurnApart(sys: System, e: EnvKey, ns: string) returns (at: System)
    requires Reachable(sys) && e in sys.procs
    requires var turn := Work(sys.store, e, sys.procs[e], Clean, Look, 0);
             && turn.next.Goto? && sys.store.clock <= turn.store.clock
             && (forall f :: f != e ==> RecordAt(turn.store, f) == RecordAt(sys.store, f))
             && (forall k :: k != NsKey(ns) ==> ObjAt(turn.store, k) == ObjAt(sys.store, k))
    ensures Reachable(at) && Apart(sys, at, e, ns)
    ensures var turn := Work(sys.store, e, sys.procs[e], Clean, Look, 0);
            at.store == turn.store && e in at.procs && at.procs[e] == turn.next.proc
  {
    at := Advanced(sys, Advance(e, Clean, Look, 0));
    ReachableOn(sys, Advance(e, Clean, Look, 0));
    hide Reachable, Work, Wakes;
  }

  // The finalizer goes on, and the namespace is found missing.
  lemma Approaches(sys: System, e: EnvKey, ns: string) returns (at: System)
    requires Reachable(sys) && e in sys.queue && e !in sys.procs && Fresh(sys.store, e, ns)
    requires NsKey(ns) !in sys.store.objects
    ensures Reachable(at) && Apart(sys, at, e, ns) && at.store.objects == sys.store.objects
    ensures Anchored(at.store, e, ns) && !at.store.records[e].deleting
    ensures at.store.records[e].spec == sys.store.records[e].spec
    ensures e in at.procs && at.procs[e] == CreateNs(at.store.records[e])
  {
    hide Reachable, TargetNamespace, Apart;
    var a := TakeApart(sys, e, ns);
    assert a.procs[e] == AddFinalizer(sys.store.records[e]);
    var b := TurnApart(a, e, ns);
    ApartOn(sys, a, b, e, ns);
    assert b.procs[e] == GetNs(b.store.records[e]);
    at := TurnApart(b, e, ns);
    ApartOn(sys, b, at, e, ns);
  }

  // And created.
  lemma Founds(sys: System, e: EnvKey, ns: string) returns (at: System)
    requires Reachable(sys) && e in sys.queue && e !in sys.procs && Fresh(sys.store, e, ns)
    requires NsKey(ns) !in sys.store.objects
    ensures Reachable(at) && Apart(sys, at, e, ns) && Anchored(at.store, e, ns) && !at.store.records[e].deleting
    ensures at.store.records[e].spec == sys.store.records[e].spec
    ensures Founded(at.store, e, ns, EnvLabels(EnvOf(e, sys.store.records[e]), ""))
    ensures sys.store.clock <= at.store.objects[NsKey(ns)].uid
  {
    hide Reachable, TargetNamespace, Apart, EnvLabels;
    var a := Approaches(sys, e, ns);
    at := CreateApart(a, e, ns);
    ApartOn(sys, a, at, e, ns);
    ApartClock(sys, a, e, ns);
  }

  // The namespace is there, active, with these labels, numbered by the clock.
  predicate Founded(s: Store, e: EnvKey, ns: string, labels: Labels) {
    && NsKey(ns) in s.objects && !s.objects[NsKey(ns)].terminating && s.objects[NsKey(ns)].labels == labels
    && ClaimedBy(labels) == Some(e) && s.objects[NsKey(ns)].uid < s.clock
  }

  lemma ApartClock(sys: System, at: System, e: EnvKey, ns: string)
    requires Apart(sys, at, e, ns)
    ensures sys.store.clock <= at.store.clock
  {
  }

  lemma CreateApart(sys: System, e: EnvKey, ns: string) returns (at: System)
    requires Reachable(sys) && e in sys.procs && e in sys.store.records
    requires sys.procs[e] == CreateNs(sys.store.records[e])
    requires TargetNamespace(EnvOf(e, sys.store.records[e])) == ns && NsKey(ns) !in sys.store.objects
    ensures Reachable(at) && Apart(sys, at, e, ns) && at.store.records == sys.store.records
    ensures Founded(at.store, e, ns, EnvLabels(EnvOf(e, sys.store.records[e]), ""))
    ensures at.store.objects[NsKey(ns)].uid == sys.store.clock
  {
    StampedIsOwned(EnvOf(e, sys.store.records[e]), "", map[]);
    ClaimIsOwnership(EnvLabels(EnvOf(e, sys.store.records[e]), ""), e);
    hide Reachable, TargetNamespace, EnvLabels, OwnedBy, ClaimedBy, Apart;
    at := TurnApart(sys, e, ns);
  }

  lemma OthersApart(sys: System, a: Action, e: EnvKey, ns: string) returns (at: System)
    requires Reachable(sys) && (a.DeleteNamespace? || a.RemoveNamespace?) && a.name == ns
    ensures Reachable(at) && Apart(sys, at, e, ns)
    ensures at.store == Others(sys.store, a) && at.procs == sys.procs && at.store.records == sys.store.records
  {
    at := Advanced(sys, a);
    ReachableOn(sys, a);
    OthersElsewhere(sys.store, a, ns);
    hide Reachable, Wakes, Others;
  }

  lemma OthersElsewhere(s: Store, a: Action, ns: string)
    requires (a.DeleteNamespace? || a.RemoveNamespace?) && a.name == ns
    ensures var t := Others(s, a);
            && t.records == s.records && s.clock <= t.clock
            && (forall k :: k != NsKey(ns) ==> ObjAt(t, k) == ObjAt(s, k))
  {
    hide Content;
  }

  // Somebody deletes the namespace, which is empty, and it goes.
  lemma Vacates(sys: System, e: EnvKey, ns: string) returns (at: System)
    requires Reachable(sys) && NsKey(ns) in sys.store.objects && Content(sys.store, ns) == {}
    ensures Reachable(at) && Apart(sys, at, e, ns) && at.procs == sys.procs && at.store.records == sys.store.records
    ensures NsKey(ns) !in at.store.objects
  {
    hide Reachable, Apart;
    var a := OthersApart(sys, DeleteNamespace(ns), e, ns);
    DeletedEmpty(sys.store, ns);
    at := OthersApart(a, RemoveNamespace(ns), e, ns);
    ApartOn(sys, a, at, e, ns);
  }

  lemma DeletedEmpty(s: Store, ns: string)
    requires NsKey(ns) in s.objects && Content(s, ns) == {}
    ensures var t := Others(s, DeleteNamespace(ns));
            NsKey(ns) in t.objects && t.objects[NsKey(ns)].terminating && Content(t, ns) == {}
  {
    var t := Others(s, DeleteNamespace(ns));
    forall k | k in Content(t, ns) ensures k in Content(s, ns) {
    }
  }

  // The user changes e's record, and the controller crashes and starts again.
  lemma Restarts(sys: System, a: Action, e: EnvKey) returns (at: System)
    requires Reachable(sys) && e in sys.store.records && (a == DeleteRecord(e) || (a.EditRecord? && a.e == e))
    ensures Reachable(at) && at.procs == map[] && at.queue == at.store.records.Keys
    ensures at.store == Others(sys.store, a)
  {
    at := Advanced(Advanced(sys, a), Crash);
    ReachableOn(sys, a);
    ReachableOn(Advanced(sys, a), Crash);
    hide Reachable, Others, Wakes;
  }

  lemma RecordDeleted(s: Store, e: EnvKey)
    requires e in s.records && Ours in s.records[e].finalizers
    ensures var t := Others(s, DeleteRecord(e));
            && t.objects == s.objects && s.clock <= t.clock && OnlyRecord(s, t, e)
            && e in t.records && t.records[e] == s.records[e].(deleting := true, version := t.records[e].version)
  {
  }

  // The end of every such run: e's worker is about to send its request, which
  // it made up its mind about while the namespace was its own or missing, and
  // the namespace is f's.
  ghost predicate TooLate(at: System, e: EnvKey, f: EnvKey, ns: string) {
    && Reachable(at) && e in at.procs && TargetFor(e, at.procs[e]) == ns
    && NsKey(ns) in at.store.objects && !at.store.objects[NsKey(ns)].terminating
    && ClaimedBy(at.store.objects[NsKey(ns)].labels) == Some(f)
  }

  lemma ThenFounds(sys: System, e: EnvKey, f: EnvKey, ns: string) returns (at: System)
    requires Reachable(sys) && e != f && e in sys.procs && TargetFor(e, sys.procs[e]) == ns
    requires f in sys.queue && f !in sys.procs && Fresh(sys.store, f, ns) && NsKey(ns) !in sys.store.objects
    ensures TooLate(at, e, f, ns) && at.procs[e] == sys.procs[e]
    ensures at.store.objects[NsKey(ns)].labels == EnvLabels(EnvOf(f, sys.store.records[f]), "")
    ensures sys.store.clock <= at.store.objects[NsKey(ns)].uid
    ensures forall k :: k != NsKey(ns) ==> ObjAt(at.store, k) == ObjAt(sys.store, k)
  {
    at := Founds(sys, f, ns);
    hide Reachable, TargetNamespace, ClaimedBy, EnvLabels;
  }

  lemma StaysFresh(a: System, b: System, e: EnvKey, f: EnvKey, ns: string)
    requires Apart(a, b, e, ns) && e != f && Fresh(a.store, f, ns)
    ensures Fresh(b.store, f, ns) && (f in a.queue ==> f in b.queue) && (f !in a.procs ==> f !in b.procs)
  {
    assert RecordAt(b.store, f) == RecordAt(a.store, f);
    hide TargetNamespace;
  }

  lemma StaysEmpty(s: Store, t: Store, ns: string)
    requires Content(s, ns) == {} && forall k :: k != NsKey(ns) ==> ObjAt(t, k) == ObjAt(s, k)
    ensures Content(t, ns) == {}
  {
    forall k | k in Content(t, ns) ensures k in Content(s, ns) {
      assert ObjAt(t, k) == ObjAt(s, k);
    }
  }

  lemma ApartStays(a: System, b: System, e: EnvKey, f: EnvKey, ns: string)
    requires Apart(a, b, e, ns) && e != f && Fresh(a.store, f, ns) && Content(a.store, ns) == {}
    ensures Fresh(b.store, f, ns) && (f in a.queue ==> f in b.queue) && (f !in a.procs ==> f !in b.procs)
    ensures Content(b.store, ns) == {} && a.store.clock <= b.store.clock
  {
    StaysFresh(a, b, e, f, ns);
    StaysEmpty(a.store, b.store, ns);
    hide Fresh, Content;
  }

  // The environment's record is deleted, its worker reads the namespace and
  // finds it its own and active, and then waits.
  lemma AboutToDelete(sys: System, e: EnvKey, f: EnvKey, ns: string) returns (was: System)
    requires Rivals(sys, e, f, ns)
    ensures Reachable(was) && e in was.procs && was.procs[e].DeleteNs? && TargetFor(e, was.procs[e]) == ns
    ensures NsKey(ns) in was.store.objects && ClaimedBy(was.store.objects[NsKey(ns)].labels) == Some(e)
    ensures was.store.objects[NsKey(ns)].uid < was.store.clock
    ensures Fresh(was.store, f, ns) && f in was.queue && f !in was.procs && Content(was.store, ns) == {}
  {
    InitialReachable(sys);
    hide Reachable, TargetNamespace, EnvLabels, Initial, Content, ClaimedBy, Others;
    var a := Founds(sys, e, ns);
    ApartStays(sys, a, e, f, ns);
    var b := Restarts(a, DeleteRecord(e), e);
    RecordDeleted(a.store, e);
    assert RecordAt(b.store, f) == RecordAt(a.store, f);
    StaysEmpty(a.store, b.store, ns);
    hide Founded, Anchored, Fresh;
    was := FindsItsOwn(b, e, f, ns);
  }

  // The start of a delete pass.
  lemma FindsItsOwn(sys: System, e: EnvKey, f: EnvKey, ns: string) returns (at: System)
    requires Reachable(sys) && e != f && e in sys.queue && e !in sys.procs && e in sys.store.records
    requires sys.store.records[e].deleting && Ours in sys.store.records[e].finalizers
    requires TargetNamespace(EnvOf(e, sys.store.records[e])) == ns
    requires NsKey(ns) in sys.store.objects && !sys.store.objects[NsKey(ns)].terminating
    requires ClaimedBy(sys.store.objects[NsKey(ns)].labels) == Some(e)
    requires Fresh(sys.store, f, ns) && f in sys.queue && f !in sys.procs && Content(sys.store, ns) == {}
    ensures Reachable(at) && at.store == sys.store
    ensures e in at.procs && at.procs[e] == DeleteNs(sys.store.records[e])
    ensures f in at.queue && f !in at.procs
  {
    ClaimIsOwnership(sys.store.objects[NsKey(ns)].labels, e);
    hide Reachable, TargetNamespace, EnvLabels, Content, ClaimedBy, OwnedBy, Fresh, Apart;
    var a := TakeApart(sys, e, ns);
    ApartStays(sys, a, e, f, ns);
    at := TurnApart(a, e, ns);
    ApartStays(a, at, e, f, ns);
  }

  lemma InitialReachable(sys: System)
    requires Initial(sys)
    ensures Reachable(sys) && sys.queue == sys.store.records.Keys && sys.procs == map[]
  {
    assert Run(sys, []) == sys;
  }

  // Any two records that ask for one namespace can come to this: the first one
  // deleted, its pending delete takes down the namespace that is the second's
  // by then. Tied to the uid it read, the delete would have done nothing.
  lemma DeleteHitsAnother(sys: System, e: EnvKey, f: EnvKey, ns: string) returns (was: System, at: System)
    requires Rivals(sys, e, f, ns)
    ensures Reachable(was) && NsKey(ns) in was.store.objects
    ensures ClaimedBy(was.store.objects[NsKey(ns)].labels) == Some(e)
    ensures TooLate(at, e, f, ns) && at.procs[e].DeleteNs?
    ensures var t := Advanced(at, Advance(e, Clean, Look, 0)).store;
            !SparesOthers(at.store, t, e) && NsKey(ns) in t.objects && t.objects[NsKey(ns)].terminating
    ensures Server.Delete(at.store, NsKey(ns), Some(was.store.objects[NsKey(ns)].uid)).store == at.store
  {
    was := AboutToDelete(sys, e, f, ns);
    hide Rivals, Reachable, Fresh, TargetNamespace, Content, ClaimedBy, EnvLabels, Initial;
    var gone := Vacates(was, e, ns);
    ApartStays(was, gone, e, f, ns);
    at := ThenFounds(gone, e, f, ns);
    hide Apart, TooLate, SparesOthers;
    PendingDelete(at, e, f, ns);
    OtherUid(was, at, e, f, ns);
  }

  lemma PendingDelete(at: System, e: EnvKey, f: EnvKey, ns: string)
    requires TooLate(at, e, f, ns) && e != f && at.procs[e].DeleteNs?
    ensures var t := Advanced(at, Advance(e, Clean, Look, 0)).store;
            !SparesOthers(at.store, t, e) && NsKey(ns) in t.objects && t.objects[NsKey(ns)].terminating
  {
    hide Reachable, ClaimedBy, TargetNamespace, SparesOthers, Wakes;
    TurnSparesExactly(at.store, e, at.procs[e], Clean, Look, 0);
  }

  lemma OtherUid(was: System, at: System, e: EnvKey, f: EnvKey, ns: string)
    requires NsKey(ns) in was.store.objects && was.store.objects[NsKey(ns)].uid < was.store.clock
    requires TooLate(at, e, f, ns) && was.store.clock <= at.store.objects[NsKey(ns)].uid
    ensures Server.Delete(at.store, NsKey(ns), Some(was.store.objects[NsKey(ns)].uid)).store == at.store
  {
    hide Reachable, ClaimedBy, TargetNamespace;
  }

  // The same two records, and no deletion: the first one's worker finds the
  // namespace missing, the second creates it, and the first one's create is
  // refused, the refusal swallowed, and the worker writes into the second's
  // namespace.
  lemma CreateEntersAnother(sys: System, e: EnvKey, f: EnvKey, ns: string, k: Key, o: Obj)
    returns (at: System, inside: System)
    requires Rivals(sys, e, f, ns) && k.kind != Namespace && k.ns == ns
    ensures TooLate(at, e, f, ns) && at.procs[e].CreateNs?
    ensures inside == Advanced(at, Advance(e, Clean, Look, 0)) && TooLate(inside, e, f, ns) && inside.procs[e].InNs?
    ensures !SparesOthers(inside.store, Advanced(inside, Advance(e, Clean, Move(k, Some(o)), 0)).store, e)
  {
    InitialReachable(sys);
    NotThere(sys.store, ns, k);
    hide Reachable, TargetNamespace, Content, ClaimedBy, EnvLabels, Initial;
    var a := Approaches(sys, e, ns);
    ApartStays(sys, a, e, f, ns);
    NotThere(a.store, ns, k);
    hide Rivals, Fresh;
    at := ThenFounds(a, e, f, ns);
    assert ObjAt(at.store, k) == ObjAt(a.store, k);
    hide Apart, SparesOthers;
    inside := Advanced(at, Advance(e, Clean, Look, 0));
    RefusedAndIn(at, e, f, ns);
    hide Advanced;
    WritesInside(inside, e, f, ns, k, o);
  }

  lemma RefusedAndIn(at: System, e: EnvKey, f: EnvKey, ns: string)
    requires TooLate(at, e, f, ns) && at.procs[e].CreateNs?
    ensures var inside := Advanced(at, Advance(e, Clean, Look, 0));
            TooLate(inside, e, f, ns) && inside.procs[e].InNs? && inside.store == at.store
  {
    ReachableOn(at, Advance(e, Clean, Look, 0));
    hide Reachable, ClaimedBy, TargetNamespace, EnvLabels, Wakes;
  }

  lemma WritesInside(at: System, e: EnvKey, f: EnvKey, ns: string, k: Key, o: Obj)
    requires TooLate(at, e, f, ns) && e != f && at.procs[e].InNs?
    requires k.kind != Namespace && k.ns == ns && ObjAt(at.store, k) == None
    ensures !SparesOthers(at.store, Advanced(at, Advance(e, Clean, Move(k, Some(o)), 0)).store, e)
  {
    hide Reachable, ClaimedBy, TargetNamespace, SparesOthers, Wakes;
    TurnSparesExactly(at.store, e, at.procs[e], Clean, Move(k, Some(o)), 0);
  }

  lemma NotThere(s: Store, ns: string, k: Key)
    requires Content(s, ns) == {} && k.kind != Namespace && k.ns == ns
    ensures ObjAt(s, k) == None
  {
    assert k !in Content(s, ns);
  }

  // ----- the patch -----

  lemma RecordEdited(s: Store, e: EnvKey, spec: EnvSpec)
    requires e in s.records && TargetNamespace(Env(e, spec)) == TargetNamespace(EnvOf(e, s.records[e]))
    ensures var t := Others(s, EditRecord(e, spec));
            && t.objects == s.objects && s.clock <= t.clock && OnlyRecord(s, t, e)
            && e in t.records && t.records[e].spec == spec && t.records[e].deleting == s.records[e].deleting
            && t.records[e].finalizers == s.records[e].finalizers
  {
    hide TargetNamespace;
  }

  // The owner in the first record's spec is changed, and its worker reads the
  // namespace's old label.
  lemma FindsOldOwner(sys: System, e: EnvKey, f: EnvKey, ns: string, before: Labels) returns (at: System)
    requires Reachable(sys) && e != f && e in sys.queue && e !in sys.procs && e in sys.store.records
    requires !sys.store.records[e].deleting && Ours in sys.store.records[e].finalizers
    requires TargetNamespace(EnvOf(e, sys.store.records[e])) == ns
    requires NsKey(ns) in sys.store.objects && sys.store.objects[NsKey(ns)].labels == before
    requires ClaimedBy(before) == Some(e)
    requires Fresh(sys.store, f, ns) && f in sys.queue && f !in sys.procs && Content(sys.store, ns) == {}
    ensures Reachable(at) && at.store == sys.store
    ensures e in at.procs
    ensures at.procs[e] == PatchNs(sys.store.records[e], LabelPatch(EnvOf(e, sys.store.records[e]), before))
    ensures f in at.queue && f !in at.procs
  {
    ClaimIsOwnership(before, e);
    hide Reachable, TargetNamespace, EnvLabels, Content, ClaimedBy, OwnedBy, Fresh, Apart, LabelPatch;
    var a := TakeApart(sys, e, ns);
    ApartStays(sys, a, e, f, ns);
    at := TurnApart(a, e, ns);
    ApartStays(a, at, e, f, ns);
  }

  // controller.go:230-237: the patch is not tied to the object that was read,
  // either. A third owner's name lands on a namespace that is the second
  // record's by then.
  lemma PatchHitsAnother(sys: System, e: EnvKey, f: EnvKey, ns: string, owner: string) returns (at: System)
    requires Rivals(sys, e, f, ns)
    requires owner != "" && owner != sys.store.records[e].spec.owner && owner != sys.store.records[f].spec.owner
    ensures TooLate(at, e, f, ns) && at.procs[e].PatchNs?
    ensures !SparesOthers(at.store, Advanced(at, Advance(e, Clean, Look, 0)).store, e)
  {
    InitialReachable(sys);
    hide Reachable, TargetNamespace, EnvLabels, Initial, Content, ClaimedBy, Others, LabelPatch, Anchored;
    var a := Founds(sys, e, ns);
    ApartStays(sys, a, e, f, ns);
    var spec := a.store.records[e].spec.(owner := owner);
    SameTarget(e, a.store.records[e].spec, owner);
    var b := Restarts(a, EditRecord(e, spec), e);
    RecordEdited(a.store, e, spec);
    AnchoredHas(a.store, e, ns);
    assert RecordAt(a.store, f) == RecordAt(sys.store, f) && RecordAt(b.store, f) == RecordAt(a.store, f);
    StaysEmpty(a.store, b.store, ns);
    var before := b.store.objects[NsKey(ns)].labels;
    var env := EnvOf(e, b.store.records[e]);
    hide Fresh, Rivals, Apart;
    var c := FindsOldOwner(b, e, f, ns, before);
    var gone := Vacates(c, e, ns);
    ApartStays(c, gone, e, f, ns);
    assert RecordAt(gone.store, f) == RecordAt(sys.store, f);
    at := ThenFounds(gone, e, f, ns);
    OwnerDiffers(EnvOf(e, sys.store.records[e]), env, EnvOf(f, sys.store.records[f]), owner);
    hide TooLate, SparesOthers;
    PendingPatch(at, e, f, ns);
  }

  lemma AnchoredHas(s: Store, e: EnvKey, ns: string)
    requires Anchored(s, e, ns)
    ensures e in s.records && Ours in s.records[e].finalizers && TargetNamespace(EnvOf(e, s.records[e])) == ns
  {
  }

  lemma SameTarget(e: EnvKey, spec: EnvSpec, owner: string)
    ensures TargetNamespace(Env(e, spec.(owner := owner))) == TargetNamespace(Env(e, spec))
  {
  }

  // The label the patch sets is one the other's namespace does not have.
  lemma OwnerDiffers(was: Env, env: Env, other: Env, owner: string)
    requires env.spec.owner == owner && owner != "" && owner != was.spec.owner && owner != other.spec.owner
    ensures var theirs := EnvLabels(other, ""); theirs + LabelPatch(env, EnvLabels(was, "")) != theirs
  {
    var delta := LabelPatch(env, EnvLabels(was, ""));
    var theirs := EnvLabels(other, "");
    assert Owner in delta && delta[Owner] == owner;
    assert Owner in theirs ==> theirs[Owner] == other.spec.owner;
    assert (theirs + delta)[Owner] == owner;
  }

  lemma PendingPatch(at: System, e: EnvKey, f: EnvKey, ns: string)
    requires TooLate(at, e, f, ns) && e != f && at.procs[e].PatchNs?
    requires at.store.objects[NsKey(ns)].labels + at.procs[e].delta != at.store.objects[NsKey(ns)].labels
    ensures !SparesOthers(at.store, Advanced(at, Advance(e, Clean, Look, 0)).store, e)
  {
    hide Reachable, ClaimedBy, TargetNamespace, SparesOthers, Wakes;
    TurnSparesExactly(at.store, e, at.procs[e], Clean, Look, 0);
  }
}
