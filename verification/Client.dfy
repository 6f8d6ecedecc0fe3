// The controller's connection to the API server. Any request can be lost on
// the way, or take effect and lose its answer; a controller that crashes is
// one all of whose later requests are lost.
module Client {
  import opened Text
  import opened Types
  import opened Server
  import opened Goals

  datatype Fault = Clean | Dropped | Unanswered

  // The fate of the next request; past the end of the list all goes well.
  function Fate(faults: seq<Fault>): Fault {
    if faults == [] then Clean else faults[0]
  }

  function Rest(faults: seq<Fault>): seq<Fault> {
    if faults == [] then [] else faults[1..]
  }

  function StoreAfter(fate: Fault, s: Store, reply: Server.Reply): Store {
    if fate == Dropped then s else reply.store
  }

  function OutcomeAfter(fate: Fault, outcome: Outcome): Outcome {
    if fate == Clean then outcome else Err(Unavailable)
  }

  // Stored content has been through the server's defaulting.
  ghost predicate Valid(s: Store) {
    && Fills(s.fill)
    && forall k :: k in s.objects ==> s.fill(k.kind, s.objects[k].body) == s.objects[k].body
  }

  ghost predicate SameBut(s: Store, t: Store, k: Key) {
    t.fill == s.fill && t.records == s.records && forall j :: j != k ==> ObjAt(t, j) == ObjAt(s, j)
  }

  // A write to an object that is there, or one the namespace admits.
  predicate Writable(s: Store, k: Key) {
    k in s.objects || NsActive(s, k.ns)
  }

  // Success takes the condition, and with no request lost the condition is
  // enough.
  predicate Exactly(before: seq<Fault>, after: seq<Fault>, ok: bool, condition: bool) {
    (ok ==> condition) && (before == [] ==> after == [] && (condition ==> ok))
  }

  // ----- what one request, whatever its fate, makes of the store -----

  lemma CreateFacts(fate: Fault, s: Store, k: Key, labels: Labels, body: Body)
    requires Valid(s) && k !in s.objects
    ensures var reply := Server.Create(s, k, labels, body);
            var t := StoreAfter(fate, s, reply);
            && Valid(t) && SameBut(s, t, k)
            && (ObjAt(t, k) == None || FaceAt(t, k) == Some(Obj(0, 0, labels, {}, false, s.fill(k.kind, body), 0)))
            && (ObjAt(t, k) == None || k.kind == Namespace || NsActive(s, k.ns))
            && (reply.outcome.Ok? <==> k.kind == Namespace || NsActive(s, k.ns))
            && (reply.outcome.Ok? && fate != Dropped ==> ObjAt(t, k) != None)
  {
    FillIdempotent(s.fill, k.kind, body);
  }

  lemma UpdateFacts(fate: Fault, s: Store, k: Key, labels: Labels, body: Body)
    requires Valid(s) && k in s.objects
    ensures var o := s.objects[k];
            var reply := Server.Update(s, k, o.(labels := labels, body := body));
            var t := StoreAfter(fate, s, reply);
            var goal := Face(o).(labels := labels, body := s.fill(k.kind, body));
            && Valid(t) && SameBut(s, t, k)
            && (ObjAt(t, k) == Some(o) || (FaceAt(t, k) == Some(goal) && Face(o) != goal))
            && (reply.outcome.Ok? <==> Immutable(k.kind, o.body, s.fill(k.kind, body)))
            && (reply.outcome.Ok? && fate != Dropped ==> FaceAt(t, k) == Some(goal))
  {
    FillIdempotent(s.fill, k.kind, body);
  }

  lemma PatchFacts(fate: Fault, s: Store, k: Key, delta: Labels)
    requires Valid(s) && k in s.objects
    ensures var o := s.objects[k];
            var reply := PatchLabels(s, k, delta);
            var t := StoreAfter(fate, s, reply);
            var goal := Face(o).(labels := o.labels + delta);
            && reply.outcome == Ok
            && Valid(t) && SameBut(s, t, k)
            && (ObjAt(t, k) == Some(o) || (FaceAt(t, k) == Some(goal) && Face(o) != goal))
            && (fate != Dropped ==> FaceAt(t, k) == Some(goal))
  {
  }

  lemma DeleteFacts(fate: Fault, s: Store, k: Key)
    requires Valid(s) && k.kind != Namespace
    ensures var reply := Server.Delete(s, k, None);
            var t := StoreAfter(fate, s, reply);
            && Valid(t) && SameBut(s, t, k)
            && (ObjAt(t, k) == ObjAt(s, k) ||
                (FaceAt(t, k) == Removed(FaceAt(s, k)) && FaceAt(s, k) != Removed(FaceAt(s, k))))
            && (k in s.objects ==> reply.outcome == Ok && (fate != Dropped ==> FaceAt(t, k) == Removed(FaceAt(s, k))))
            && (k !in s.objects ==> reply.outcome == Err(NotFound))
  {
  }

  lemma GuardedDeleteFacts(s: Store, k: Key)
    requires k in s.objects
    ensures Server.Delete(s, k, Some(s.objects[k].uid)) == Server.Delete(s, k, None)
  {
  }

  class ApiClient {
    var store: Store
    var faults: seq<Fault>

    constructor (store: Store, faults: seq<Fault>)
      ensures this.store == store && this.faults == faults
    {
      this.store := store;
      this.faults := faults;
    }

    method Read() returns (fate: Fault)
      modifies `faults
      ensures fate == Fate(old(faults)) && faults == Rest(old(faults))
    {
      fate := Fate(faults);
      faults := Rest(faults);
    }

    // Other actors' turn.
    method Others(requests: seq<Request>)
      modifies `store
      ensures store == ServeAll(old(store), requests)
    {
      store := ServeAll(store, requests);
    }

    method Send(reply: Server.Reply) returns (outcome: Outcome)
      modifies this
      ensures faults == Rest(old(faults))
      ensures store == StoreAfter(Fate(old(faults)), old(store), reply)
      ensures outcome == OutcomeAfter(Fate(old(faults)), reply.outcome)
    {
      var fate := Read();
      store := StoreAfter(fate, store, reply);
      outcome := OutcomeAfter(fate, reply.outcome);
    }

    method Get(k: Key) returns (o: Option<Obj>, outcome: Outcome)
      modifies `faults
      ensures faults == Rest(old(faults))
      ensures outcome == OutcomeAfter(Fate(old(faults)), if k in store.objects then Ok else Err(NotFound))
      ensures o == if outcome.Ok? then ObjAt(store, k) else None
    {
      var fate := Read();
      outcome := OutcomeAfter(fate, if k in store.objects then Ok else Err(NotFound));
      o := if outcome.Ok? then ObjAt(store, k) else None;
    }

    method GetRecord(e: EnvKey) returns (r: Option<Record>, outcome: Outcome)
      modifies `faults
      ensures faults == Rest(old(faults))
      ensures outcome == OutcomeAfter(Fate(old(faults)), if e in store.records then Ok else Err(NotFound))
      ensures outcome.Ok? ==> e in store.records && r == Some(store.records[e])
    {
      var fate := Read();
      outcome := OutcomeAfter(fate, if e in store.records then Ok else Err(NotFound));
      r := if outcome.Ok? then Some(store.records[e]) else None;
    }

    // List by label: the keys of one kind in one namespace, in any order.
    method ListManaged(kind: Kind, env: Env) returns (keys: seq<Key>, outcome: Outcome)
      modifies `faults
      ensures faults == Rest(old(faults))
      ensures outcome == OutcomeAfter(Fate(old(faults)), Ok)
      ensures forall i, j :: 0 <= i < j < |keys| ==> keys[i] != keys[j]
      ensures outcome.Ok? ==>
                forall k :: k in keys <==>
                  k in store.objects && k.kind == kind && k.ns == TargetNamespace(env) &&
                    Listed(env, store.objects[k].labels)
    {
      var fate := Read();
      outcome := OutcomeAfter(fate, Ok);
      keys := [];
      var left := set k | k in store.objects && k.kind == kind && k.ns == TargetNamespace(env) &&
                          Listed(env, store.objects[k].labels);
      ghost var all := left;
      while left != {}
        invariant left <= all
        invariant forall k :: k in keys <==> k in all && k !in left
        invariant forall i, j :: 0 <= i < j < |keys| ==> keys[i] != keys[j]
        decreases left
      {
        var k :| k in left;
        keys := keys + [k];
        left := left - {k};
      }
    }

    // controllerutil.CreateOrUpdate: get, mutate, then create, or update if
    // the mutation changed anything.
    method CreateOrUpdate(k: Key, labels: Labels, desired: Body, onCreate: Body)
      returns (o: Option<Obj>, outcome: Outcome)
      requires Valid(store) && k.kind != Namespace
      modifies this
      ensures Valid(store) && SameBut(old(store), store, k)
      ensures var was := FaceAt(old(store), k);
              var goal := Some(Written(store.fill, k.kind, was, labels, desired, onCreate));
              && (ObjAt(store, k) == ObjAt(old(store), k) || (FaceAt(store, k) == goal && was != goal))
              && (outcome.Ok? ==> FaceAt(store, k) == goal && o == ObjAt(store, k))
      ensures k in store.objects ==> Writable(old(store), k)
      ensures Exactly(old(faults), faults, outcome.Ok?,
                      && Writable(old(store), k)
                      && (k in old(store).objects ==>
                            Immutable(k.kind, old(store).objects[k].body,
                                      store.fill(k.kind, Apply(k.kind, old(store).objects[k].body, desired)))))
    {
      o, outcome := Get(k);
      if outcome == Err(NotFound) {
        var body := Apply(k.kind, map[], desired) + onCreate;
        CreateFacts(Fate(faults), store, k, labels, body);
        outcome := Send(Server.Create(store, k, labels, body));
        o := ObjAt(store, k);
      } else if outcome.Ok? {
        var mutated := o.value.(labels := labels, body := Apply(k.kind, o.value.body, desired));
        if mutated != o.value {
          UpdateFacts(Fate(faults), store, k, labels, mutated.body);
          outcome := Send(Server.Update(store, k, mutated));
          o := ObjAt(store, k);
        }
      }
    }
  }
}
