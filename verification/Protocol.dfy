// The controller and everybody else, one API request at a time. A worker may
// lose any request, the process may crash between any two, and users, outsiders
// and the namespace controller act whenever they like.
module Protocol {
  import opened Text
  import opened Types
  import opened Server
  import opened Goals
  import opened Client
  import opened Steps
  import opened Passes
  import opened StatusRules

  // ----- the worker -----

  // Where a worker stands: the request it sends next, and the record as it
  // last read it. Provisioning is any number of requests on what is in the
  // namespace, and reads each service's Deployment in turn.
  datatype Proc =
    | AddFinalizer(read: Record)
    | GetNs(read: Record)
    | CreateNs(read: Record)
    | PatchNs(read: Record, delta: Labels)
    | InNs(read: Record, seen: nat, ready: nat)
    | WriteStatus(read: Record, status: Status, again: bool)
    | FindNs(read: Record)
    | DeleteNs(read: Record)
    | DropFinalizer(read: Record)

  // How the request went on: another request, or the end of the pass. Retry
  // stands for an error or a timed requeue.
  datatype Next = Goto(proc: Proc) | Done | Retry

  datatype Choice =
    | Move(k: Key, o: Option<Obj>)
    | Look
    | Finish(problems: seq<Problem>)
    | Fail(cause: Cause)

  datatype Turn = Turn(store: Store, next: Next)

  function Failing(read: Record, cause: Cause, now: nat): Next {
    Goto(WriteStatus(read, FailedStatus(read.status, read.generation, cause, now), true))
  }

  // controller.go:224-238: the patch is the difference to what was read.
  function LabelPatch(env: Env, existing: Labels): Labels {
    var wanted := EnvLabels(env, "");
    map l | l in wanted && (l !in existing || existing[l] != wanted[l]) :: wanted[l]
  }

  // Anything but namespaces can be changed, but nothing created in a namespace
  // that is missing or going away.
  predicate Permitted(s: Store, k: Key, o: Option<Obj>) {
    k.kind != Namespace && (o.Some? && k !in s.objects ==> NsActive(s, k.ns))
  }

  function PutObject(s: Store, k: Key, o: Option<Obj>): Store {
    match o
    case Some(obj) => Put(s, k, obj)
    case None => s.(objects := s.objects - {k}, clock := s.clock + 1)
  }

  // The service's Deployment bears the environment's labels, as it does after
  // the create-or-update that reads it.
  predicate DeploymentHeld(s: Store, env: Env, svc: ServiceSpec) {
    var k := DeployKey(env, svc.name);
    k in s.objects && OwnedBy(s.objects[k].labels, env.key)
  }

  function InNsTurn(s: Store, e: EnvKey, read: Record, seen: nat, ready: nat, choice: Choice, now: nat): Turn {
    var env := EnvOf(e, read);
    var services := read.spec.services;
    var stay := Turn(s, Goto(InNs(read, seen, ready)));
    match choice
    case Move(k, o) =>
      if k.ns == TargetNamespace(env) && Permitted(s, k, o) then
        Turn(PutObject(s, k, o), Goto(InNs(read, seen, ready)))
      else stay
    case Look =>
      if seen < |services| && DeploymentHeld(s, env, services[seen]) then
        Turn(s, Goto(InNs(read, seen + 1, if ReadyNow(s, env, services[seen]) then ready + 1 else ready)))
      else stay
    case Finish(problems) =>
      if seen == |services| then
        Turn(s, Goto(WriteStatus(read,
                                 ProvisionedStatus(read.status, read.generation, TargetNamespace(env), ready, seen,
                                                   problems, now),
                                 ready < seen)))
      else stay
    case Fail(cause) => Turn(s, Failing(read, cause, now))
  }

  // One request of a worker.
  function Work(s: Store, e: EnvKey, p: Proc, fate: Fault, choice: Choice, now: nat): Turn {
    var env := EnvOf(e, p.read);
    var ns := NsKey(TargetNamespace(env));
    match p
    case AddFinalizer(read) =>
      var reply := UpdateFinalizers(s, e, read, read.finalizers + {Ours});
      var t := StoreAfter(fate, s, reply);
      if fate == Clean && reply.outcome.Ok? && e in t.records then Turn(t, Goto(GetNs(t.records[e])))
      else Turn(t, Retry)
    case GetNs(read) =>
      if fate != Clean then Turn(s, Failing(read, CallFailed(Unavailable), now))
      else if ns !in s.objects then Turn(s, Goto(CreateNs(read)))
      else if !OwnedBy(s.objects[ns].labels, e) then Turn(s, Failing(read, NamespaceNotManaged, now))
      else Turn(s, Goto(PatchNs(read, LabelPatch(env, s.objects[ns].labels))))
    case CreateNs(read) =>
      var reply := Server.Create(s, ns, EnvLabels(env, ""), map[]);
      var t, outcome := StoreAfter(fate, s, reply), OutcomeAfter(fate, reply.outcome);
      if outcome.Ok? || outcome.error == AlreadyExists then Turn(t, Goto(InNs(read, 0, 0)))
      else Turn(t, Failing(read, CallFailed(outcome.error), now))
    case PatchNs(read, delta) =>
      var reply := PatchLabels(s, ns, delta);
      var t, outcome := StoreAfter(fate, s, reply), OutcomeAfter(fate, reply.outcome);
      if outcome.Ok? then Turn(t, Goto(InNs(read, 0, 0)))
      else Turn(t, Failing(read, CallFailed(outcome.error), now))
    case InNs(read, seen, ready) => InNsTurn(s, e, read, seen, ready, choice, now)
    case WriteStatus(read, status, again) =>
      // A conflict is not an error.
      var reply := UpdateStatus(s, e, read, status);
      var t, outcome := StoreAfter(fate, s, reply), OutcomeAfter(fate, reply.outcome);
      Turn(t, if again then Retry else if outcome.Ok? || outcome.error == Conflict then Done else Retry)
    case FindNs(read) =>
      if fate != Clean then Turn(s, Retry)
      else if ns !in s.objects || !OwnedBy(s.objects[ns].labels, e) then Turn(s, Goto(DropFinalizer(read)))
      else if s.objects[ns].terminating then Turn(s, Done)
      else Turn(s, Goto(DeleteNs(read)))
    case DeleteNs(read) =>
      var reply := Server.Delete(s, ns, None);
      var t, outcome := StoreAfter(fate, s, reply), OutcomeAfter(fate, reply.outcome);
      Turn(t, if outcome.Ok? || outcome.error == NotFound then Done else Retry)
    case DropFinalizer(read) =>
      var reply := UpdateFinalizers(s, e, read, read.finalizers - {Ours});
      var t, outcome := StoreAfter(fate, s, reply), OutcomeAfter(fate, reply.outcome);
      Turn(t, if outcome.Ok? then Done else Retry)
  }

  // The start of a pass: the record is read.
  function Start(s: Store, e: EnvKey, fate: Fault): Next {
    if fate != Clean then Retry
    else if e !in s.records then Done
    else
      var r := s.records[e];
      if r.deleting then (if Ours in r.finalizers then Goto(FindNs(r)) else Done)
      else if Ours !in r.finalizers then Goto(AddFinalizer(r))
      else Goto(GetNs(r))
  }

  // ----- watches -----

  predicate Watched(kind: Kind) {
    kind == Namespace || kind == Deployment
  }

  function Mapped(s: Store, k: Key): set<EnvKey> {
    if k in s.objects then ToKeys(MapToEnvironment(s.objects[k].labels)) else {}
  }

  function ToKeys(keys: seq<EnvKey>): set<EnvKey> {
    set e | e in keys
  }

  // Which environments the watches enqueue when the store changes: those
  // whose record changed, and those that a changed Namespace or Deployment
  // maps to, by its labels before or after.
  function Wakes(s: Store, t: Store): set<EnvKey> {
    (set e | e in s.records.Keys + t.records.Keys && RecordAt(s, e) != RecordAt(t, e))
    + (set k, e | k in s.objects.Keys + t.objects.Keys && Watched(k.kind) && ObjAt(s, k) != ObjAt(t, k)
                  && e in Mapped(s, k) + Mapped(t, k) :: e)
  }

  // ----- the system -----

  // `timers` holds the keys to be enqueued later. At most one worker has a key.
  datatype System = System(store: Store, queue: set<EnvKey>, timers: set<EnvKey>, procs: map<EnvKey, Proc>)

  datatype Action =
    | Take(e: EnvKey, fate: Fault)
    | Advance(e: EnvKey, fate: Fault, choice: Choice, now: nat)
    | Crash
    | Fire(e: EnvKey)
    | CreateRecord(e: EnvKey, spec: EnvSpec)
    | EditRecord(e: EnvKey, spec: EnvSpec)
    | DeleteRecord(e: EnvKey)
    | EditFinalizers(e: EnvKey, theirs: set<string>)
    | CreateNamespace(name: string, labels: Labels)
    | LabelNamespace(name: string, labels: Labels)
    | DeleteNamespace(name: string)
    | RemoveNamespace(name: string)
    | ChangeObject(k: Key, o: Option<Obj>)

  // The environment a namespace's labels claim it for.
  function ClaimedBy(labels: Labels): Option<EnvKey> {
    if Lookup(labels, ManagedBy) == MANAGER then
      Some(EnvKey(Lookup(labels, OwnerNamespace), Lookup(labels, Label.Environment)))
    else None
  }

  lemma ClaimIsOwnership(labels: Labels, e: EnvKey)
    ensures OwnedBy(labels, e) <==> ClaimedBy(labels) == Some(e)
  {
  }

  function Content(s: Store, ns: string): set<Key> {
    set k | k in s.objects && k.kind != Namespace && k.ns == ns
  }

  const BLANK := Status(NoPhase, "", 0, 0, 0, [])

  // What the others may do to the store. They do not forge ownership, do not
  // strip the controller's finalizer, and a record's target does not change.
  // A namespace goes when it is terminating and empty.
  function Others(s: Store, a: Action): Store {
    match a
    case CreateRecord(e, spec) =>
      if e in s.records || e.name == "" || e.ns == "" then s
      else PutRecord(s, e, Record(s.clock, s.clock, 1, false, {}, spec, BLANK))
    case EditRecord(e, spec) =>
      if e !in s.records || TargetNamespace(Env(e, spec)) != TargetNamespace(EnvOf(e, s.records[e])) then s
      else PutRecord(s, e, s.records[e].(spec := spec, generation := s.records[e].generation + 1, version := s.clock))
    case DeleteRecord(e) =>
      if e !in s.records then s
      else if s.records[e].finalizers == {} then s.(records := s.records - {e}, clock := s.clock + 1)
      else PutRecord(s, e, s.records[e].(deleting := true, version := s.clock))
    case EditFinalizers(e, theirs) =>
      if e !in s.records then s
      else
        var r := s.records[e];
        var now := (set name | name in theirs :: Theirs(name)) + (if Ours in r.finalizers then {Ours} else {});
        if r.deleting && now == {} then s.(records := s.records - {e}, clock := s.clock + 1)
        else PutRecord(s, e, r.(finalizers := now, version := s.clock))
    case CreateNamespace(name, labels) =>
      if ClaimedBy(labels).Some? then s else Server.Create(s, NsKey(name), labels, map[]).store
    case LabelNamespace(name, labels) =>
      var k := NsKey(name);
      if k !in s.objects || (ClaimedBy(labels).Some? && ClaimedBy(labels) != ClaimedBy(s.objects[k].labels)) then s
      else Put(s, k, s.objects[k].(labels := labels, version := s.clock))
    case DeleteNamespace(name) => Server.Delete(s, NsKey(name), None).store
    case RemoveNamespace(name) =>
      var k := NsKey(name);
      if k in s.objects && s.objects[k].terminating && Content(s, name) == {} then
        s.(objects := s.objects - {k}, clock := s.clock + 1)
      else s
    case ChangeObject(k, o) => if Permitted(s, k, o) then PutObject(s, k, o) else s
    case _ => s
  }

  // The system after a worker's turn for e.
  function After(sys: System, e: EnvKey, queue: set<EnvKey>, turn: Turn): System {
    var woken := queue + Wakes(sys.store, turn.store);
    match turn.next
    case Goto(p) => System(turn.store, woken, sys.timers, sys.procs[e := p])
    case Done => System(turn.store, woken, sys.timers, sys.procs - {e})
    case Retry => System(turn.store, woken, sys.timers + {e}, sys.procs - {e})
  }

  // One step. An action that is not possible leaves the system as it is. A
  // controller that starts enqueues every record there is.
  function Advanced(sys: System, a: Action): System {
    match a
    case Take(e, fate) =>
      if e in sys.queue && e !in sys.procs then
        After(sys, e, sys.queue - {e}, Turn(sys.store, Start(sys.store, e, fate)))
      else sys
    case Advance(e, fate, choice, now) =>
      if e in sys.procs then After(sys, e, sys.queue, Work(sys.store, e, sys.procs[e], fate, choice, now))
      else sys
    case Crash => System(sys.store, sys.store.records.Keys, {}, map[])
    case Fire(e) =>
      if e in sys.timers then System(sys.store, sys.queue + {e}, sys.timers - {e}, sys.procs) else sys
    case _ =>
      var t := Others(sys.store, a);
      System(t, sys.queue + Wakes(sys.store, t), sys.timers, sys.procs)
  }

  function Run(sys: System, actions: seq<Action>): System
    decreases |actions|
  {
    if actions == [] then sys else Advanced(Run(sys, actions[..|actions| - 1]), actions[|actions| - 1])
  }

  // A cluster the controller has not been on yet: no record has its
  // finalizer, and no namespace its labels.
  ghost predicate Initial(sys: System) {
    && sys == System(sys.store, sys.store.records.Keys, {}, map[])
    && (forall e :: e in sys.store.records ==> e.name != "" && e.ns != "" && Ours !in sys.store.records[e].finalizers)
    && (forall k :: k in sys.store.objects && k.kind == Namespace ==> ClaimedBy(sys.store.objects[k].labels).None?)
  }

  // A state some sequence of actions leads to.
  ghost predicate Reachable(sys: System) {
    exists initial, actions :: Initial(initial) && Run(initial, actions) == sys
  }

  lemma ReachableOn(sys: System, a: Action)
    requires Reachable(sys)
    ensures Reachable(Advanced(sys, a))
  {
    var initial, actions :| Initial(initial) && Run(initial, actions) == sys;
    var more := actions + [a];
    assert more[..|more| - 1] == actions;
    hide Advanced, Initial;
    assert Run(initial, more) == Advanced(sys, a);
  }
}
