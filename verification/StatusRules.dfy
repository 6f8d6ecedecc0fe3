// controller.go:734-776 and 1059-1090: the status a pass writes.
module StatusRules {
  import opened Text
  import opened Types
  import opened Diagnosis

  // ----- meta.SetStatusCondition -----

  function Merge(was: Condition, c: Condition): Condition {
    c.(since := if was.status == c.status then was.since else c.since)
  }

  function Upsert(conditions: seq<Condition>, c: Condition): seq<Condition> {
    if conditions == [] then [c]
    else if conditions[0].kind == c.kind then [Merge(conditions[0], c)] + conditions[1..]
    else [conditions[0]] + Upsert(conditions[1..], c)
  }

  predicate NoDuplicates(conditions: seq<Condition>) {
    forall i, j :: 0 <= i < j < |conditions| ==> conditions[i].kind != conditions[j].kind
  }

  function Find(conditions: seq<Condition>, kind: ConditionType): Option<Condition> {
    if conditions == [] then None
    else if conditions[0].kind == kind then Some(conditions[0])
    else Find(conditions[1..], kind)
  }

  predicate Is(conditions: seq<Condition>, kind: ConditionType, status: Truth) {
    Find(conditions, kind).Some? && Find(conditions, kind).value.status == status
  }

  lemma {:induction false} UpsertFinds(conditions: seq<Condition>, c: Condition, kind: ConditionType)
    ensures kind == c.kind ==>
              && Find(Upsert(conditions, c), kind).Some?
              && Find(Upsert(conditions, c), kind).value.(since := 0) == c.(since := 0)
    ensures kind != c.kind ==> Find(Upsert(conditions, c), kind) == Find(conditions, kind)
  {
    if conditions != [] {
      UpsertFinds(conditions[1..], c, kind);
    }
  }

  lemma {:induction false} FindNone(conditions: seq<Condition>, kind: ConditionType)
    ensures Find(conditions, kind).None? <==> forall i :: 0 <= i < |conditions| ==> conditions[i].kind != kind
  {
    if conditions != [] {
      FindNone(conditions[1..], kind);
      assert conditions == [conditions[0]] + conditions[1..];
    }
  }

  lemma {:induction false} UpsertNoDuplicates(conditions: seq<Condition>, c: Condition)
    requires NoDuplicates(conditions)
    ensures NoDuplicates(Upsert(conditions, c))
  {
    if conditions != [] && conditions[0].kind != c.kind {
      var rest := conditions[1..];
      UpsertNoDuplicates(rest, c);
      FindNone(rest, conditions[0].kind);
      UpsertFinds(rest, c, conditions[0].kind);
      FindNone(Upsert(rest, c), conditions[0].kind);
    }
  }

  // ----- what is written -----

  function TruthOf(b: bool): Truth {
    if b then True else False
  }

  function Cond(kind: ConditionType, status: Truth, reason: Reason, message: Message, generation: nat,
                now: nat): Condition {
    Condition(kind, status, reason, message, generation, now)
  }

  // The three conditions setProvisioned sets.
  function AvailableNow(g: nat, ready: nat, total: nat, now: nat): Condition {
    Cond(Available, TruthOf(ready == total), if ready == total then EnvironmentReady else ServicesNotReady,
         ReadyCount(ready, total), g, now)
  }

  predicate Unhealthy(ready: nat, total: nat, problems: seq<Problem>) {
    ready != total && problems != []
  }

  function ProgressingNow(g: nat, ready: nat, total: nat, problems: seq<Problem>, now: nat): Condition {
    if Unhealthy(ready, total, problems) then
      Cond(Progressing, False, WorkloadUnhealthy, Problems(problems), g, now)
    else
      Cond(Progressing, TruthOf(ready != total), if ready != total then ProvisioningReason else Provisioned,
           ReadyCount(ready, total), g, now)
  }

  function DegradedNow(g: nat, ready: nat, total: nat, problems: seq<Problem>, now: nat): Condition {
    if Unhealthy(ready, total, problems) then Cond(Degraded, True, WorkloadUnhealthy, Problems(problems), g, now)
    else Cond(Degraded, False, ReconcileSucceeded, Succeeded, g, now)
  }

  // setProvisioned, less the write.
  function ProvisionedStatus(status: Status, generation: nat, target: string, ready: nat, total: nat,
                             problems: seq<Problem>, now: nat): Status {
    var c1 := Upsert(status.conditions, AvailableNow(generation, ready, total, now));
    var c2 := Upsert(c1, ProgressingNow(generation, ready, total, problems, now));
    var c3 := Upsert(c2, DegradedNow(generation, ready, total, problems, now));
    Status(if ready == total then Ready else Provisioning, target, ready, total, generation, c3)
  }

  // setFailed, less the write: the counts and the namespace stay as they were.
  function FailedStatus(status: Status, generation: nat, cause: Cause, now: nat): Status {
    var c1 := Upsert(status.conditions, Cond(Available, False, ProvisioningFailed, Failure(cause), generation, now));
    var c2 := Upsert(c1, Cond(Progressing, False, ProvisioningFailed, Failure(cause), generation, now));
    var c3 := Upsert(c2, Cond(Degraded, True, ReconcileFailed, Failure(cause), generation, now));
    status.(phase := Failed, generation := generation, conditions := c3)
  }

  // ----- coherence -----

  // Exactly one of the three conditions is true and the others are false, no
  // type occurs twice, and the phase is Ready exactly when Available is true.
  predicate Coherent(status: Status) {
    var c := status.conditions;
    && NoDuplicates(c)
    && ((Is(c, Available, True) && Is(c, Progressing, False) && Is(c, Degraded, False)) ||
        (Is(c, Available, False) && Is(c, Progressing, True) && Is(c, Degraded, False)) ||
        (Is(c, Available, False) && Is(c, Progressing, False) && Is(c, Degraded, True)))
    && (status.phase == Ready <==> Is(c, Available, True))
  }

  lemma ThreeUpserts(c: seq<Condition>, a: Condition, p: Condition, d: Condition)
    requires NoDuplicates(c) && a.kind == Available && p.kind == Progressing && d.kind == Degraded
    ensures var r := Upsert(Upsert(Upsert(c, a), p), d);
            NoDuplicates(r) && Is(r, Available, a.status) && Is(r, Progressing, p.status) && Is(r, Degraded, d.status)
  {
    UpsertNoDuplicates(c, a);
    UpsertNoDuplicates(Upsert(c, a), p);
    UpsertNoDuplicates(Upsert(Upsert(c, a), p), d);
    UpsertFinds(c, a, Available);
    UpsertFinds(Upsert(c, a), p, Available);
    UpsertFinds(Upsert(c, a), p, Progressing);
    UpsertFinds(Upsert(Upsert(c, a), p), d, Available);
    UpsertFinds(Upsert(Upsert(c, a), p), d, Progressing);
    UpsertFinds(Upsert(Upsert(c, a), p), d, Degraded);
  }

  lemma ProvisionedCoherent(status: Status, generation: nat, target: string, ready: nat, total: nat,
                            problems: seq<Problem>, now: nat)
    requires NoDuplicates(status.conditions)
    ensures var r := ProvisionedStatus(status, generation, target, ready, total, problems, now);
            && Coherent(r)
            && (r.phase == Ready <==> r.ready == r.total)
            && (Is(r.conditions, Degraded, True) <==> ready != total && problems != [])
  {
    var a := AvailableNow(generation, ready, total, now);
    var p, d := ProgressingNow(generation, ready, total, problems, now),
                DegradedNow(generation, ready, total, problems, now);
    ThreeUpserts(status.conditions, a, p, d);
  }

  lemma FailedCoherent(status: Status, generation: nat, cause: Cause, now: nat)
    requires NoDuplicates(status.conditions)
    ensures var r := FailedStatus(status, generation, cause, now);
            Coherent(r) && r.phase == Failed && Is(r.conditions, Degraded, True)
  {
    ThreeUpserts(status.conditions,
                 Cond(Available, False, ProvisioningFailed, Failure(cause), generation, now),
                 Cond(Progressing, False, ProvisioningFailed, Failure(cause), generation, now),
                 Cond(Degraded, True, ReconcileFailed, Failure(cause), generation, now));
  }

  // One status write of any pass.
  datatype Write =
    | WriteProvisioned(generation: nat, target: string, ready: nat, total: nat, problems: seq<Problem>, now: nat)
    | WriteFailed(generation: nat, cause: Cause, now: nat)

  function AfterWrite(status: Status, w: Write): Status {
    match w
    case WriteProvisioned(g, target, ready, total, problems, now) =>
      ProvisionedStatus(status, g, target, ready, total, problems, now)
    case WriteFailed(g, cause, now) => FailedStatus(status, g, cause, now)
  }

  function AfterWrites(status: Status, writes: seq<Write>): Status {
    if writes == [] then status else AfterWrite(AfterWrites(status, writes[..|writes| - 1]), writes[|writes| - 1])
  }

  // After any run of status writes the status is coherent, and says Ready
  // exactly when the last write was not a failure and its counts agree.
  lemma {:induction false} AlwaysCoherent(status: Status, writes: seq<Write>)
    requires NoDuplicates(status.conditions) && writes != []
    ensures var r := AfterWrites(status, writes);
            && Coherent(r)
            && (r.phase == Failed <==> writes[|writes| - 1].WriteFailed?)
            && (r.phase == Ready <==> r.ready == r.total && r.phase != Failed)
    decreases |writes|
  {
    var init := writes[..|writes| - 1];
    if init != [] {
      AlwaysCoherent(status, init);
    }
    match writes[|writes| - 1]
    case WriteProvisioned(g, target, ready, total, problems, now) =>
      ProvisionedCoherent(AfterWrites(status, init), g, target, ready, total, problems, now);
    case WriteFailed(g, cause, now) =>
      FailedCoherent(AfterWrites(status, init), g, cause, now);
  }

  // The counts alone do not say Ready: a failure leaves them as the last
  // success wrote them.
  lemma CountsOutliveReady()
    ensures var blank := Status(NoPhase, "", 0, 0, 0, []);
            var r := AfterWrites(blank,
                                 [WriteProvisioned(1, "dev", 2, 2, [], 0), WriteFailed(2, NamespaceNotManaged, 1)]);
            r.ready == r.total == 2 && r.namespace == "dev" && r.phase == Failed
  {
    var blank := Status(NoPhase, "", 0, 0, 0, []);
    var writes := [WriteProvisioned(1, "dev", 2, 2, [], 0), WriteFailed(2, NamespaceNotManaged, 1)];
    AlwaysCoherent(blank, writes);
    assert writes[..1] == [writes[0]] && writes[..1][..0] == [];
    assert AfterWrites(blank, writes[..1]) == AfterWrite(blank, writes[0]);
  }

  // A write of a pass that saw this: a failure, or a success with some service
  // not ready and the problems its listings show.
  predicate WriteSeeing(w: Write, services: seq<ServiceSpec>, seen: Observation) {
    w.WriteProvisioned? ==> w.ready < w.total && w.problems == Report(services, |services|, seen)
  }

  // While a restarting container is in the listing and some service is not
  // ready, every status written, of a success or a failure, says Degraded.
  lemma DegradedHolds(status: Status, w: Write, services: seq<ServiceSpec>, seen: Observation,
                      life: seq<ContainerStatus>, n: nat, pod: Pod, i: nat, k: nat)
    requires NoDuplicates(status.conditions) && WriteSeeing(w, services, seen)
    requires n < |life| && Failing(life[0]) && NeverWell(life)
    requires forall j :: 0 <= j < |life| - 1 ==> LifeStep(life[j], life[j + 1])
    requires i < |pod.containers| && pod.containers[i] == life[n] && !pod.terminating
    requires seen.pods.Some? && pod in seen.pods.value
    requires k < |services| && services[k].name == Lookup(pod.labels, Label.Service) && services[k].name != ""
    ensures Is(AfterWrite(status, w).conditions, Degraded, True)
  {
    match w
    case WriteProvisioned(generation, target, ready, total, problems, now) =>
      CrashLoopReported(life, n, pod, i, seen, services, k);
      ProvisionedCoherent(status, generation, target, ready, total, problems, now);
    case WriteFailed(generation, cause, now) =>
      FailedCoherent(status, generation, cause, now);
  }

  // ----- failing on the way does not show in the end -----

  function Timeless(conditions: seq<Condition>): seq<Condition> {
    seq(|conditions|, i requires 0 <= i < |conditions| => conditions[i].(since := 0))
  }

  lemma {:induction false} UpsertTimeless(conditions: seq<Condition>, c: Condition)
    ensures Timeless(Upsert(conditions, c)) == Upsert(Timeless(conditions), c.(since := 0))
  {
    if conditions != [] {
      assert Timeless(conditions)[1..] == Timeless(conditions[1..]);
      if conditions[0].kind != c.kind {
        UpsertTimeless(conditions[1..], c);
        assert Timeless(Upsert(conditions, c)) == [conditions[0].(since := 0)] + Timeless(Upsert(conditions[1..], c));
      }
    }
  }

  predicate AllTimeless(conditions: seq<Condition>) {
    forall i :: 0 <= i < |conditions| ==> conditions[i].since == 0
  }

  lemma {:induction false} UpsertTwice(conditions: seq<Condition>, a: Condition, b: Condition)
    requires a.kind == b.kind && AllTimeless(conditions) && a.since == b.since == 0
    ensures Upsert(Upsert(conditions, a), b) == Upsert(conditions, b)
  {
    if conditions != [] && conditions[0].kind != a.kind {
      UpsertTwice(conditions[1..], a, b);
    }
  }

  lemma {:induction false} UpsertsCommute(conditions: seq<Condition>, a: Condition, b: Condition)
    requires a.kind != b.kind && Find(conditions, b.kind).Some?
    ensures Upsert(Upsert(conditions, a), b) == Upsert(Upsert(conditions, b), a)
  {
    if conditions[0].kind != b.kind {
      if conditions[0].kind != a.kind {
        UpsertsCommute(conditions[1..], a, b);
      }
    }
  }

  lemma {:induction false} UpsertAllTimeless(conditions: seq<Condition>, c: Condition)
    requires AllTimeless(conditions) && c.since == 0
    ensures AllTimeless(Upsert(conditions, c))
  {
    if conditions != [] && conditions[0].kind != c.kind {
      UpsertAllTimeless(conditions[1..], c);
    }
  }

  // Setting the three conditions again replaces what was set before.
  lemma OverwritesThree(c: seq<Condition>, a: Condition, p: Condition, d: Condition, a': Condition, p': Condition,
                        d': Condition)
    requires AllTimeless(c) && a.since == p.since == d.since == a'.since == p'.since == d'.since == 0
    requires a.kind == a'.kind == Available && p.kind == p'.kind == Progressing && d.kind == d'.kind == Degraded
    ensures Upsert(Upsert(Upsert(Upsert(Upsert(Upsert(c, a), p), d), a'), p'), d') ==
            Upsert(Upsert(Upsert(c, a'), p'), d')
  {
    var ca := Upsert(c, a);
    var cap := Upsert(ca, p);
    UpsertAllTimeless(c, a);
    UpsertAllTimeless(ca, p);
    UpsertFinds(c, a, Available);
    UpsertFinds(ca, p, Available);
    UpsertFinds(ca, p, Progressing);
    // Move a' next to a.
    UpsertsCommute(cap, d, a');
    UpsertsCommute(ca, p, a');
    UpsertTwice(c, a, a');
    var c1 := Upsert(c, a');
    UpsertAllTimeless(c, a');
    var c1p := Upsert(c1, p);
    UpsertAllTimeless(c1, p);
    UpsertFinds(c1, p, Progressing);
    // Move p' next to p.
    UpsertsCommute(c1p, d, p');
    UpsertTwice(c1, p, p');
    UpsertAllTimeless(c1, p');
    UpsertTwice(Upsert(c1, p'), d, d');
  }

  lemma ThreeTimeless(c: seq<Condition>, a: Condition, p: Condition, d: Condition)
    ensures Timeless(Upsert(Upsert(Upsert(c, a), p), d)) ==
            Upsert(Upsert(Upsert(Timeless(c), a.(since := 0)), p.(since := 0)), d.(since := 0))
  {
    UpsertTimeless(c, a);
    UpsertTimeless(Upsert(c, a), p);
    UpsertTimeless(Upsert(Upsert(c, a), p), d);
  }

  // A success written after a failure is the success written without it, up
  // to transition times.
  lemma FailureLeavesNoTrace(status: Status, g0: nat, cause: Cause, now0: nat,
                             generation: nat, target: string, ready: nat, total: nat, problems: seq<Problem>, now: nat)
    ensures var after :=
            ProvisionedStatus(FailedStatus(status, g0, cause, now0), generation, target, ready, total, problems, now);
            var straight := ProvisionedStatus(status, generation, target, ready, total, problems, now);
            after.(conditions := Timeless(after.conditions)) == straight.(conditions := Timeless(straight.conditions))
  {
    var f1 := Cond(Available, False, ProvisioningFailed, Failure(cause), g0, now0);
    var f2 := Cond(Progressing, False, ProvisioningFailed, Failure(cause), g0, now0);
    var f3 := Cond(Degraded, True, ReconcileFailed, Failure(cause), g0, now0);
    var a := AvailableNow(generation, ready, total, now);
    var p, d := ProgressingNow(generation, ready, total, problems, now),
                DegradedNow(generation, ready, total, problems, now);
    var c := status.conditions;
    var failed := Upsert(Upsert(Upsert(c, f1), f2), f3);
    ThreeTimeless(c, f1, f2, f3);
    ThreeTimeless(failed, a, p, d);
    ThreeTimeless(c, a, p, d);
    OverwritesThree(Timeless(c), f1.(since := 0), f2.(since := 0), f3.(since := 0), a.(since := 0), p.(since := 0),
                    d.(since := 0));
  }
}
