// The status over runs of whole passes, including those that fail or are cut
// off.
module StatusRuns {
  import opened Types
  import opened Server
  import opened Steps
  import opened Client
  import opened Passes
  import opened StatusRules
  import opened Protocol

  // What any pass leaves in the status: nothing new, or a coherent whole for
  // the generation it read.
  lemma PassWritesCoherently(s: Store, t: Store, e: EnvKey)
    requires Pass(s, t, e) && e in s.records && !s.records[e].deleting && NoDuplicates(s.records[e].status.conditions)
    ensures e in t.records
    ensures var r, was := t.records[e].status, s.records[e].status;
            || r == was
            || (&& Coherent(r) && r.generation == s.records[e].generation
                && (r.phase == Ready ==> r.ready == r.total == |s.records[e].spec.services|)
                && (r.phase == Provisioning ==> r.ready < r.total == |s.records[e].spec.services|))
  {
    hide Goals.Between, SupportFirst;
    var r, was := t.records[e].status, s.records[e].status;
    if r != was {
      var w :| r == AfterWrite(was, w) && WriteFits(e, s.records[e], w);
      match w
      case WriteProvisioned(g, target, ready, total, problems, now) =>
        ProvisionedCoherent(was, g, target, ready, total, problems, now);
      case WriteFailed(g, cause, now) => FailedCoherent(was, g, cause, now);
    }
  }

  // A pass that reports no error asks to be run again exactly when the phase
  // it wrote is not Ready.
  lemma RequeueUnlessReady(s: Store, t: Store, e: EnvKey, seen: Diagnosis.Observation, now: nat, requeue: bool)
    requires e in s.records && ProvisionSuccess(s, t, e, seen, now, requeue)
    requires NoDuplicates(s.records[e].status.conditions)
    ensures e in t.records && Coherent(t.records[e].status)
    ensures requeue <==> t.records[e].status.phase != Ready
    ensures t.records[e].status.phase == Ready <==> Is(t.records[e].status.conditions, Available, True)
  {
    var r := s.records[e];
    var ready := CountReady(t, EnvOf(e, r), |r.spec.services|);
    ProvisionedCoherent(r.status, r.generation, TargetNamespace(EnvOf(e, r)), ready, |r.spec.services|,
                        Diagnosis.Report(r.spec.services, |r.spec.services|, seen), now);
    hide Succeeds, Goals.Reached, Diagnosis.Report, Is, Coherent;
  }

  // ----- whatever anybody does -----

  // As the record came with it, or a coherent whole.
  ghost predicate Sound(initial: System, e: EnvKey, status: Status) {
    && NoDuplicates(status.conditions)
    && (|| (e in initial.store.records && status == initial.store.records[e].status)
        || status == BLANK
        || Coherent(status))
  }

  ghost predicate SoundProc(initial: System, e: EnvKey, p: Proc) {
    Sound(initial, e, p.read.status) && (p.WriteStatus? ==> Coherent(p.status))
  }

  ghost predicate SoundStore(initial: System, s: Store) {
    forall e :: e in s.records ==> Sound(initial, e, s.records[e].status)
  }

  ghost predicate AllSound(initial: System, sys: System) {
    SoundStore(initial, sys.store) && forall e :: e in sys.procs ==> SoundProc(initial, e, sys.procs[e])
  }

  lemma CoherentIsSound(initial: System, e: EnvKey, status: Status)
    requires Coherent(status)
    ensures Sound(initial, e, status)
  {
  }

  // What a worker decides to write is coherent.
  lemma DecidesCoherently(s: Store, e: EnvKey, p: Proc, fate: Fault, choice: Choice, now: nat)
    requires NoDuplicates(p.read.status.conditions) && !p.WriteStatus?
    ensures var next := Work(s, e, p, fate, choice, now).next;
            next.Goto? && next.proc.WriteStatus? ==> Coherent(next.proc.status) && next.proc.read == p.read
  {
    var next := Work(s, e, p, fate, choice, now).next;
    if next.Goto? && next.proc.WriteStatus? {
      var r := p.read;
      if p.InNs? && choice.Finish? {
        ProvisionedCoherent(r.status, r.generation, TargetNamespace(EnvOf(e, r)), p.ready, p.seen, choice.problems,
                            now);
      } else {
        forall cause ensures Coherent(FailedStatus(r.status, r.generation, cause, now)) {
          FailedCoherent(r.status, r.generation, cause, now);
        }
      }
    }
    hide FailedStatus, ProvisionedStatus, Coherent, LabelPatch, OwnedBy, Permitted, TargetNamespace, EnvLabels;
  }

  // A worker's turn leaves every status as it was, but the one it writes.
  lemma WorkStatus(s: Store, e: EnvKey, p: Proc, fate: Fault, choice: Choice, now: nat)
    ensures var turn := Work(s, e, p, fate, choice, now);
            && (forall f :: f in turn.store.records ==>
                  && f in s.records
                  && (turn.store.records[f].status == s.records[f].status ||
                      (f == e && p.WriteStatus? && turn.store.records[f].status == p.status)))
            && (turn.next.Goto? && !turn.next.proc.WriteStatus? ==>
                  turn.next.proc.read == p.read ||
                    (e in turn.store.records && turn.next.proc.read == turn.store.records[e]))
            && (p.WriteStatus? ==> !turn.next.Goto?)
  {
    hide FailedStatus, ProvisionedStatus, LabelPatch, OwnedBy, Permitted, TargetNamespace, EnvLabels;
  }

  lemma WorkSound(initial: System, s: Store, e: EnvKey, p: Proc, fate: Fault, choice: Choice, now: nat)
    requires SoundStore(initial, s) && SoundProc(initial, e, p)
    ensures var turn := Work(s, e, p, fate, choice, now);
            SoundStore(initial, turn.store) && (turn.next.Goto? ==> SoundProc(initial, e, turn.next.proc))
  {
    WorkStatus(s, e, p, fate, choice, now);
    if p.WriteStatus? {
      CoherentIsSound(initial, e, p.status);
    } else {
      DecidesCoherently(s, e, p, fate, choice, now);
    }
    hide Work, Sound, Coherent;
  }

  lemma OthersSound(initial: System, s: Store, a: Action)
    requires SoundStore(initial, s)
    ensures SoundStore(initial, Others(s, a))
  {
    hide ClaimedBy, EnvLabels, TargetNamespace, Coherent;
  }

  lemma StepSound(initial: System, sys: System, a: Action)
    requires AllSound(initial, sys)
    ensures AllSound(initial, Advanced(sys, a))
  {
    match a
    case Advance(e, fate, choice, now) =>
      if e in sys.procs {
        WorkSound(initial, sys.store, e, sys.procs[e], fate, choice, now);
        hide Work, Sound, Wakes;
      }
    case Take(_, _) =>
      hide Sound, Wakes;
    case Crash =>
    case Fire(_) =>
    case _ =>
      OthersSound(initial, sys.store, a);
      hide Others, Sound, Wakes;
  }

  lemma {:induction false} RunSound(initial: System, actions: seq<Action>)
    requires Initial(initial)
    requires forall e :: e in initial.store.records ==> NoDuplicates(initial.store.records[e].status.conditions)
    ensures AllSound(initial, Run(initial, actions))
    decreases |actions|
  {
    if actions != [] {
      RunSound(initial, actions[..|actions| - 1]);
      StepSound(initial, Run(initial, actions[..|actions| - 1]), actions[|actions| - 1]);
      hide AllSound, Advanced;
    }
  }

  // Over any run of anybody's - passes of every environment request by request,
  // losses, crashes, edits, deletions and new records - a record's status is
  // the one it came with or coherent.
  lemma StatusEverCoherent(initial: System, actions: seq<Action>, e: EnvKey)
    requires Initial(initial)
    requires forall f :: f in initial.store.records ==> NoDuplicates(initial.store.records[f].status.conditions)
    requires e in Run(initial, actions).store.records
    ensures var status := Run(initial, actions).store.records[e].status;
            || Coherent(status)
            || status == BLANK
            || (e in initial.store.records && status == initial.store.records[e].status)
  {
    RunSound(initial, actions);
    hide Run, Initial, Coherent;
  }
}
