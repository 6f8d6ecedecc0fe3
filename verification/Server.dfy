// The Kubernetes API server as the controller meets it: a store of records
// and objects, and what each request does to it.
module Server {
  import opened Text
  import opened Types

  datatype Kind = Namespace | ConfigMap | Secret | Claim | Deployment | Service

  // Namespaces are cluster-scoped: their own `ns` is empty.
  datatype Key = Key(kind: Kind, ns: string, name: string)

  function NsKey(name: string): Key {
    Key(Namespace, "", name)
  }

  // ----- content -----

  datatype Part = Name | Image | Port | Resources | Variables | EnvFrom | Mounts | Readiness | Defaulted(path: string)

  // The fields of an object's content. Those the controller leaves alone are
  // Unmanaged; the server may fill in any that are unset.
  datatype Field =
    | Type | Data
    | Selector | Replicas | TemplateLabels | Container(part: Part) | Volumes | PullSecrets | FsGroup
    | ServiceSelector | ServiceType | Ports
    | AccessModes | StorageClass | Size
    | Unmanaged(path: string)

  datatype Source = FromConfigMap(name: string) | FromSecret(name: string)

  datatype Value =
    | Word(text: string)
    | Number(n: nat)
    | Table(entries: map<string, string>)
    | LabelSet(labels: Labels)
    | Names(names: seq<string>)
    | Sources(sources: seq<Source>)
    | Probing(probe: Probe)

  type Body = map<Field, Value>

  datatype Obj = Obj(
    uid: nat,
    version: nat,
    labels: Labels,
    finalizers: set<string>,
    terminating: bool,
    body: Body,
    readyReplicas: nat)

  function TypeOf(body: Body): Value {
    if Type in body then body[Type] else Word("")
  }

  function DataOf(body: Body): Value {
    if Data in body then body[Data] else Table(map[])
  }

  // ----- the store -----

  // `fill` is the server's defaulting. `clock` numbers uids and versions.
  datatype Store = Store(
    records: map<EnvKey, Record>,
    objects: map<Key, Obj>,
    clock: nat,
    fill: (Kind, Body) -> Body)

  ghost predicate Within(a: Body, b: Body) {
    forall f :: f in a ==> f in b && b[f] == a[f]
  }

  // Defaulting fills unset fields only, and what it fills in does not depend
  // on whether it is asked before or after some of that is already there.
  // There is no default selector.
  ghost predicate Fills(fill: (Kind, Body) -> Body) {
    && (forall b :: Selector in fill(Deployment, b) ==> Selector in b)
    && (forall kind, b :: Within(b, fill(kind, b)))
    && (forall kind, b, c :: Within(b, c) && Within(c, fill(kind, b)) ==> fill(kind, c) == fill(kind, b))
  }

  lemma FillIdempotent(fill: (Kind, Body) -> Body, kind: Kind, b: Body)
    requires Fills(fill)
    ensures fill(kind, fill(kind, b)) == fill(kind, b)
  {
    assert Within(b, fill(kind, b)) && Within(fill(kind, b), fill(kind, b));
  }

  function ObjAt(s: Store, k: Key): Option<Obj> {
    if k in s.objects then Some(s.objects[k]) else None
  }

  predicate NsActive(s: Store, ns: string) {
    NsKey(ns) in s.objects && !s.objects[NsKey(ns)].terminating
  }

  datatype Outcome = Ok | Err(error: ApiError)

  datatype Reply = Reply(store: Store, outcome: Outcome)

  // ----- requests on objects -----

  function Put(s: Store, k: Key, o: Obj): Store {
    s.(objects := s.objects[k := o], clock := s.clock + 1)
  }

  // Nothing can be created in a namespace that is missing or going away.
  function Create(s: Store, k: Key, labels: Labels, body: Body): Reply {
    if k in s.objects then Reply(s, Err(AlreadyExists))
    else if k.kind != Namespace && !NsActive(s, k.ns) then Reply(s, Err(Forbidden))
    else Reply(Put(s, k, Obj(s.clock, s.clock, labels, {}, false, s.fill(k.kind, body), 0)), Ok)
  }

  // A Secret's type and a Deployment's selector cannot change.
  predicate Immutable(kind: Kind, was: Body, now: Body) {
    match kind
    case Secret => TypeOf(now) == TypeOf(was)
    case Deployment => (Selector in now <==> Selector in was) && (Selector in was ==> now[Selector] == was[Selector])
    case _ => true
  }

  // `o` is the object as it was read, with labels and body changed. The server
  // fills in defaults before it looks for forbidden changes, and a write that
  // changes nothing leaves the version alone.
  function Update(s: Store, k: Key, o: Obj): Reply {
    if k !in s.objects then Reply(s, Err(NotFound))
    else
      var was := s.objects[k];
      if was.uid != o.uid || was.version != o.version then Reply(s, Err(Conflict))
      else if !Immutable(k.kind, was.body, s.fill(k.kind, o.body)) then Reply(s, Err(Invalid))
      else
        var now := was.(labels := o.labels, body := s.fill(k.kind, o.body));
        Reply(if now == was then s else Put(s, k, now.(version := s.clock)), Ok)
  }

  // A merge patch that sets labels and is not tied to a version.
  function PatchLabels(s: Store, k: Key, delta: Labels): Reply {
    if k !in s.objects then Reply(s, Err(NotFound))
    else
      var was := s.objects[k];
      var now := was.(labels := was.labels + delta);
      Reply(if now == was then s else Put(s, k, now.(version := s.clock)), Ok)
  }

  // Deleting a namespace, or an object with finalizers, only marks it.
  function Delete(s: Store, k: Key, uid: Option<nat>): Reply {
    if k !in s.objects then Reply(s, Err(NotFound))
    else
      var was := s.objects[k];
      if uid.Some? && uid.value != was.uid then Reply(s, Err(Conflict))
      else if k.kind == Namespace || was.finalizers != {} then
        Reply(if was.terminating then s else Put(s, k, was.(terminating := true, version := s.clock)), Ok)
      else Reply(s.(objects := s.objects - {k}, clock := s.clock + 1), Ok)
  }

  // ----- requests on records -----

  function PutRecord(s: Store, e: EnvKey, r: Record): Store {
    s.(records := s.records[e := r], clock := s.clock + 1)
  }

  // Finalizers may be added only while the record is not being deleted, and
  // a record being deleted goes when its last finalizer does.
  function UpdateFinalizers(s: Store, e: EnvKey, read: Record, finalizers: set<Finalizer>): Reply {
    if e !in s.records then Reply(s, Err(NotFound))
    else
      var was := s.records[e];
      if was.uid != read.uid || was.version != read.version then Reply(s, Err(Conflict))
      else if was.deleting && !(finalizers <= was.finalizers) then Reply(s, Err(Invalid))
      else if was.deleting && finalizers == {} then
        Reply(s.(records := s.records - {e}, clock := s.clock + 1), Ok)
      else if finalizers == was.finalizers then Reply(s, Ok)
      else Reply(PutRecord(s, e, was.(finalizers := finalizers, version := s.clock)), Ok)
  }

  function UpdateStatus(s: Store, e: EnvKey, read: Record, status: Status): Reply {
    if e !in s.records then Reply(s, Err(NotFound))
    else
      var was := s.records[e];
      if was.uid != read.uid || was.version != read.version then Reply(s, Err(Conflict))
      else if status == was.status then Reply(s, Ok)
      else Reply(PutRecord(s, e, was.(status := status, version := s.clock)), Ok)
  }

  // ----- anybody's requests -----

  // Anybody's request. Editing covers what the others do to an object that
  // the controller never does: finalizers, status, any field.
  datatype Request =
    | Creating(k: Key, labels: Labels, body: Body)
    | Updating(k: Key, o: Obj)
    | Labelling(k: Key, delta: Labels)
    | Deleting(k: Key, uid: Option<nat>)
    | Editing(k: Key, finalizers: set<string>, readyReplicas: nat)
    | Draining(k: Key)

  // Editing the finalizers off an object that is going makes it go; draining
  // is the end of a namespace or of what is in it.
  function Serve(s: Store, r: Request): Store {
    match r
    case Creating(k, labels, body) => Create(s, k, labels, body).store
    case Updating(k, o) => Update(s, k, o).store
    case Labelling(k, delta) => PatchLabels(s, k, delta).store
    case Deleting(k, uid) => Delete(s, k, uid).store
    case Editing(k, finalizers, ready) =>
      if k !in s.objects then s
      else if s.objects[k].terminating && finalizers == {} && k.kind != Namespace then
        s.(objects := s.objects - {k}, clock := s.clock + 1)
      else Put(s, k, s.objects[k].(finalizers := finalizers, readyReplicas := ready, version := s.clock))
    case Draining(k) =>
      if k in s.objects && s.objects[k].terminating then s.(objects := s.objects - {k}, clock := s.clock + 1) else s
  }

  function ServeAll(s: Store, rs: seq<Request>): Store
    decreases |rs|
  {
    if rs == [] then s else ServeAll(Serve(s, rs[0]), rs[1..])
  }
}
