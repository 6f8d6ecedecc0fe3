// Anybody else acting on the cluster, and what that means for replacing a
// Secret whose type has to change (controller.go:311-323 and 342-401).
module Interference {
  import opened Text
  import opened Types
  import opened Server
  import opened Goals
  import opened Client
  import opened Steps

  // ----- the server's law -----

  ghost predicate Numbered(s: Store) {
    forall k :: k in s.objects ==> s.objects[k].uid < s.clock
  }

  // One key over time: an object keeps its uid, and a Secret its type; an
  // object that is not the one that was there has a uid handed out since.
  predicate SameOrNewer(s: Store, t: Store, k: Key) {
    k in t.objects ==>
      if k in s.objects && t.objects[k].uid == s.objects[k].uid then
        k.kind == Secret ==> TypeOf(t.objects[k].body) == TypeOf(s.objects[k].body)
      else s.clock <= t.objects[k].uid
  }

  ghost predicate Evolves(s: Store, t: Store) {
    s.clock <= t.clock && Numbered(t) && t.fill == s.fill && forall k :: SameOrNewer(s, t, k)
  }

  lemma ServeEvolves(s: Store, r: Request)
    requires Numbered(s)
    ensures Evolves(s, Serve(s, r))
  {
  }

  // Whatever anybody does, and however much of it, the law holds.
  lemma {:induction false} ServeAllEvolves(s: Store, rs: seq<Request>)
    requires Numbered(s)
    ensures Evolves(s, ServeAll(s, rs))
    decreases |rs|
  {
    if rs != [] {
      var t := Serve(s, rs[0]);
      ServeEvolves(s, rs[0]);
      ServeAllEvolves(t, rs[1..]);
      hide Serve;
      EvolvesOn(s, t, ServeAll(t, rs[1..]));
    }
  }

  lemma EvolvesOn(s: Store, t: Store, u: Store)
    requires Numbered(s) && Evolves(s, t) && Evolves(t, u)
    ensures Evolves(s, u)
  {
    forall k ensures SameOrNewer(s, u, k) {
      assert SameOrNewer(s, t, k) && SameOrNewer(t, u, k);
    }
  }

  // ----- the replacement -----

  // What replaceOnTypeChange has read when it sends its delete.
  predicate ReadToReplace(s: Store, env: Env, k: Key, want: Value) {
    && k.kind == Secret && k in s.objects
    && OwnedBy(s.objects[k].labels, env.key) && TypeOf(s.objects[k].body) != want
  }

  // The delete removes the object that was read as owned, or nothing; and what
  // it removes still has the wrong type when it goes. It can tell whether
  // somebody was there first.
  lemma OnlyWhatWasRead(s: Store, rs: seq<Request>, env: Env, k: Key, want: Value)
    requires Numbered(s) && ReadToReplace(s, env, k, want)
    ensures var t := ServeAll(s, rs);
            var reply := Server.Delete(t, k, Some(s.objects[k].uid));
            && (forall j :: j != k ==> ObjAt(reply.store, j) == ObjAt(t, j))
            && (ObjAt(reply.store, k) != ObjAt(t, k) ==>
                  && k in t.objects && t.objects[k].uid == s.objects[k].uid
                  && TypeOf(t.objects[k].body) == TypeOf(s.objects[k].body) != want)
            && (reply.outcome == Ok <==> k in t.objects && t.objects[k].uid == s.objects[k].uid)
            && (reply.outcome == Err(NotFound) <==> k !in t.objects)
            && (reply.outcome == Err(Conflict) <==> k in t.objects && s.clock <= t.objects[k].uid)
  {
    ServeAllEvolves(s, rs);
    hide ServeAll;
    assert SameOrNewer(s, ServeAll(s, rs), k);
  }

  // A correct copy somebody put there in the meantime survives.
  lemma CorrectCopySurvives(s: Store, rs: seq<Request>, env: Env, k: Key, want: Value)
    requires Numbered(s) && ReadToReplace(s, env, k, want)
    requires var t := ServeAll(s, rs); k in t.objects && TypeOf(t.objects[k].body) == want
    ensures var t := ServeAll(s, rs);
            Server.Delete(t, k, Some(s.objects[k].uid)) == Reply(t, Err(Conflict))
  {
    ServeAllEvolves(s, rs);
    hide ServeAll;
    assert SameOrNewer(s, ServeAll(s, rs), k);
  }

  // Were the delete not tied to the uid, it could take down a correct copy:
  // here another reconcile replaces the copy between the read and the delete.
  lemma UidMatters(s: Store, env: Env, k: Key, want: Value)
    requires Fills(s.fill) && Numbered(s) && ReadToReplace(s, env, k, want) && s.objects[k].finalizers == {}
    requires NsActive(s, k.ns)
    ensures var t := ServeAll(s, [Deleting(k, None), Creating(k, EnvLabels(env, ""), map[Type := want])]);
            && k in t.objects && TypeOf(t.objects[k].body) == want
            && k !in Server.Delete(t, k, None).store.objects
            && Server.Delete(t, k, Some(s.objects[k].uid)).store == t
  {
    var body: Body := map[Type := want];
    var gone, back := Deleting(k, None), Creating(k, EnvLabels(env, ""), body);
    ServeBoth(s, gone, back);
    assert Within(body, s.fill(Secret, body));
    assert body[Type] == want;
    hide EnvLabels, ServeAll, Fills;
    assert Serve(s, gone) == s.(objects := s.objects - {k}, clock := s.clock + 1);
  }

  lemma ServeBoth(s: Store, a: Request, b: Request)
    ensures ServeAll(s, [a, b]) == Serve(Serve(s, a), b)
  {
    assert [a, b][1..] == [b] && [b][1..] == [];
    hide Serve;
    assert ServeAll(Serve(s, a), [b]) == ServeAll(Serve(Serve(s, a), b), []);
  }

  // ----- for the method -----

  lemma NothingServed(s: Store)
    ensures ServeAll(s, []) == s
  {
  }

  // From the read at s, with others having made t of it, to what is left at u.
  ghost predicate OnlyReadIsDeleted(s: Store, t: Store, u: Store, env: Env, k: Key, want: Value) {
    && u.records == t.records && u.fill == t.fill
    && (forall j :: j != k ==> ObjAt(u, j) == ObjAt(t, j))
    && (Numbered(s) && ObjAt(u, k) != ObjAt(t, k) ==>
          && ReadToReplace(s, env, k, want)
          && k in t.objects && t.objects[k].uid == s.objects[k].uid && TypeOf(t.objects[k].body) != want)
  }

  lemma GuardedDelete(fate: Fault, s: Store, others: seq<Request>, env: Env, k: Key, want: Value)
    requires ReadToReplace(s, env, k, want)
    ensures var t := ServeAll(s, others);
            OnlyReadIsDeleted(s, t, StoreAfter(fate, t, Server.Delete(t, k, Some(s.objects[k].uid))), env, k, want)
  {
    if Numbered(s) {
      OnlyWhatWasRead(s, others, env, k, want);
    }
    hide ServeAll, OwnedBy;
  }

  // When the source has been accepted and has the type asked for.
  ghost predicate Replacement(s: Store, env: Env, name: string, want: Value) {
    Valid(s) && name in ReferencedNames(env.spec) && SourceAccepted(s, env, name) &&
      want == TypeOf(SourceBody(s, env, name))
  }

  // Not replaced means nothing to replace; replaced means a copy of the wrong
  // type is gone, or is kept only by somebody's finalizer.
  ghost predicate ReplaceDone(s: Store, t: Store, env: Env, name: string, want: Value, replaced: bool, ok: bool) {
    var k := CopyKey(env, name);
    && (!replaced && ok ==>
          && ObjAt(t, k) == ObjAt(s, k)
          && (FaceAt(t, k).Some? ==>
              OwnedBy(FaceAt(t, k).value.labels, env.key) && TypeOf(FaceAt(t, k).value.body) == want))
    && (replaced ==>
          && ok && ReadToReplace(s, env, k, want)
          && (ObjAt(t, k) == None <==> s.objects[k].finalizers == {}))
  }

  lemma ReplacingWay(fate: Fault, s: Store, env: Env, name: string, want: Value)
    requires Replacement(s, env, name, want) && ReadToReplace(s, env, CopyKey(env, name), want)
    ensures var k := CopyKey(env, name);
            var reply := Server.Delete(s, k, Some(s.objects[k].uid));
            var u := StoreAfter(fate, s, reply);
            && Valid(u) && Between(s, u, env) && SameBut(s, u, k) && reply.outcome.Ok?
            && (fate != Dropped ==> (ObjAt(u, k) == None <==> s.objects[k].finalizers == {}))
  {
    var k := CopyKey(env, name);
    var u := StoreAfter(fate, s, Server.Delete(s, k, None));
    DeleteFacts(fate, s, k);
    GuardedDeleteFacts(s, k);
    CopyKeyGoal(s, env, name);
    hide Valid, OwnedBy, EnvLabels, ReferencedNames, SourceAccepted, Goal;
    OneKey(s, u, env, k);
  }

  // What is left at u of t by a create at k, lost or not: nothing that was
  // there is touched, and a create that is acknowledged found no object.
  ghost predicate NothingOverwritten(t: Store, u: Store, k: Key, ok: bool) {
    && u.records == t.records && u.fill == t.fill
    && (forall j :: j in t.objects || j != k ==> ObjAt(u, j) == ObjAt(t, j))
    && (ok ==> k !in t.objects && k in u.objects)
  }

  lemma CreateSpares(fate: Fault, t: Store, k: Key, labels: Labels, body: Body)
    ensures var reply := Server.Create(t, k, labels, body);
            NothingOverwritten(t, StoreAfter(fate, t, reply), k, OutcomeAfter(fate, reply.outcome).Ok?)
  {
  }

  // When s is the store the copy was read in, and t the one its predecessor's
  // deletion left.
  ghost predicate Recreation(s: Store, t: Store, env: Env, name: string, source: Body) {
    && Valid(s) && Valid(t) && Between(s, t, env) && SameBut(s, t, CopyKey(env, name))
    && name in ReferencedNames(env.spec) && SourceAccepted(s, env, name) && source == SourceBody(s, env, name)
    && (ObjAt(t, CopyKey(env, name)) == None ==>
          Goal(s, env, CopyKey(env, name)) == Some(Written(s.fill, Secret, None, EnvLabels(env, ""), source, map[])))
  }

  lemma RecreatedWay(fate: Fault, s: Store, t: Store, env: Env, name: string, source: Body)
    requires Recreation(s, t, env, name, source)
    ensures var k := CopyKey(env, name);
            var reply := Server.Create(t, k, EnvLabels(env, ""), source);
            var u := StoreAfter(fate, t, reply);
            && Valid(u) && Between(s, u, env) && SameBut(s, u, k)
            && (OutcomeAfter(fate, reply.outcome).Ok? ==> AtGoal(s, u, env, k))
            && (reply.outcome.Ok? <==> ObjAt(t, k) == None && NsActive(s, TargetNamespace(env)))
  {
    var k := CopyKey(env, name);
    var u := StoreAfter(fate, t, Server.Create(t, k, EnvLabels(env, ""), source));
    assert ObjAt(t, NsKey(TargetNamespace(env))) == ObjAt(s, NsKey(TargetNamespace(env)));
    assert Fills(s.fill);
    CopyCreated(fate, t, env, name, source);
    hide Goal, SourceAccepted, SourceBody, EnvLabels, Valid, Fills, Between, Written, ReferencedNames, Server.Create;
    ReplacedWay(s, t, u, env, name);
  }

  // One create of a copy, lost or not.
  lemma CopyCreated(fate: Fault, t: Store, env: Env, name: string, source: Body)
    requires Valid(t)
    ensures var k := CopyKey(env, name);
            var reply := Server.Create(t, k, EnvLabels(env, ""), source);
            var u := StoreAfter(fate, t, reply);
            && Valid(u) && SameBut(t, u, k)
            && (ObjAt(u, k) == ObjAt(t, k) ||
                (ObjAt(t, k) == None &&
                 FaceAt(u, k) == Some(Written(t.fill, Secret, None, EnvLabels(env, ""), source, map[]))))
            && (k in u.objects ==> Writable(t, k))
            && (reply.outcome.Ok? <==> ObjAt(t, k) == None && NsActive(t, k.ns))
            && (OutcomeAfter(fate, reply.outcome).Ok? ==> k in u.objects)
  {
    var k := CopyKey(env, name);
    FreshCopy(t.fill, env, source);
    hide EnvLabels, Valid, Written, NsActive;
    if k !in t.objects {
      CreateFacts(fate, t, k, EnvLabels(env, ""), source);
    }
  }
}
