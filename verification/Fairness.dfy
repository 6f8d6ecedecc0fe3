// controller.go:698-732: an environment that is deleted is taken down in the
// end, as long as nobody who has something to do is passed over for ever.
module Fairness {
  import opened Text
  import opened Types
  import opened Server
  import opened Client
  import opened Passes
  import opened StatusRules
  import opened Protocol
  import opened NoOrphan
  import opened WakeUps
  import opened Teardown
  import opened Completion
  import opened Atomicity

  // ----- whose turn it is -----

  // What a teardown can wait for: its worker's next request, the end of a pass
  // that is in the namespace, a free worker for its key, its timer, and the
  // namespace controller.
  datatype Whose = Worker | Leaving | Queue | Timer | Cleaner

  predicate Waiting(sys: System, e: EnvKey, w: Whose) {
    match w
    case Worker => e in sys.procs
    case Leaving => Inside(sys, e)
    case Queue => e in sys.queue && e !in sys.procs
    case Timer => e in sys.timers
    case Cleaner => Tearing(sys.store, e) && NsPhase(sys.store, e) == 1
  }

  ghost predicate Acts(sys: System, a: Action, e: EnvKey, w: Whose) {
    match w
    case Worker => a.Advance? && a.e == e
    case Leaving => a.Advance? && a.e == e && !Inside(Advanced(sys, a), e)
    case Queue => a.Take? && a.e == e
    case Timer => a == Fire(e)
    case Cleaner => !a.Advance? && Effective(sys, a, e)
  }

  ghost predicate Turns(run: nat -> System, act: nat -> Action, e: EnvKey, w: Whose, m: nat) {
    Waiting(run(m), e, w) ==> Acts(run(m), act(m), e, w)
  }

  ghost predicate TurnComes(run: nat -> System, act: nat -> Action, e: EnvKey, w: Whose, n: nat) {
    exists m: nat :: m >= n && Turns(run, act, e, w, m)
  }

  // Weak fairness: nobody waits from some point on without getting a turn.
  ghost predicate Fair(run: nat -> System, act: nat -> Action, e: EnvKey) {
    forall w, n: nat :: TurnComes(run, act, e, w, n)
  }

  // A step that does not disturb the teardown: the controller stays up, the
  // record is left alone, and no request of its worker is lost. Of everybody
  // else's steps nothing is asked.
  predicate Calm(a: Action, e: EnvKey) {
    match a
    case Take(f, fate) => f == e ==> fate == Clean
    case Advance(f, fate, _, _) => f == e ==> fate == Clean
    case Crash => false
    case EditRecord(f, _) => f != e
    case DeleteRecord(f) => f != e
    case EditFinalizers(f, _) => f != e
    case _ => true
  }

  ghost predicate CalmFrom(act: nat -> Action, e: EnvKey, n: nat) {
    forall m: nat :: m >= n ==> Calm(act(m), e)
  }

  // ----- what the teardown waits for -----

  // Where the worker is, as far as it matters: while the namespace is going,
  // nothing is up to the worker.
  function Pace(sys: System, e: EnvKey): nat {
    if !Tearing(sys.store, e) || NsPhase(sys.store, e) == 1 then 0 else Stage(sys, e)
  }

  function Due(sys: System, e: EnvKey): Whose
    requires Tearing(sys.store, e)
  {
    if Inside(sys, e) then Leaving
    else if InFlight(sys.procs, e) > 0 then Worker
    else if NsPhase(sys.store, e) == 1 then Cleaner
    else if e in sys.procs then Worker
    else if e in sys.queue then Queue
    else Timer
  }

  lemma DueWaits(sys: System, e: EnvKey)
    requires Awake(sys) && Tearing(sys.store, e)
    ensures Waiting(sys, e, Due(sys, e))
  {
    hide Knows, Sensible, AllReady, OwnedBy, TargetNamespace, Content;
  }

  ghost predicate Gains(sys: System, after: System, e: EnvKey) {
    || Below(RankOf(after, e), RankOf(sys, e))
    || (RankOf(after, e) == RankOf(sys, e) && Pace(after, e) < Pace(sys, e))
  }

  // Nothing gained, nothing lost, and it waits for the same.
  ghost predicate Abreast(sys: System, after: System, e: EnvKey)
    requires Tearing(sys.store, e)
  {
    && Tearing(after.store, e) && RankOf(after, e) == RankOf(sys, e)
    && Pace(after, e) == Pace(sys, e) && Due(after, e) == Due(sys, e)
  }

  lemma NearerGains(sys: System, after: System, e: EnvKey)
    requires Tearing(sys.store, e) && NsPhase(sys.store, e) != 1 && Nearer(sys, after, e)
    ensures Gains(sys, after, e)
  {
    hide Stage, InFlight, NsPhase, Left;
  }

  // ----- the turn that is waited for -----

  // The requests of a delete pass leave the worker no choice.
  lemma NoChoice(s: Store, e: EnvKey, p: Proc, choice: Choice, now: nat)
    requires InFlight(map[e := p], e) == 0
    ensures Work(s, e, p, Clean, choice, now) == Work(s, e, p, Clean, Look, 0)
  {
    hide OwnedBy, TargetNamespace;
  }

  lemma WorkerGains(sys: System, a: Action, e: EnvKey)
    requires Safe(sys) && Awake(sys) && Tearing(sys.store, e) && e in sys.procs && Due(sys, e) == Worker
    requires Acts(sys, a, e, Worker) && Calm(a, e)
    ensures Gains(sys, Advanced(sys, a), e)
  {
    var p := sys.procs[e];
    if InFlight(sys.procs, e) > 0 {
      OwnFlight(sys.store, e, p, Clean, a.choice, a.now);
      assert InFlight(sys.procs, e) == Weight(Goto(p));
      hide Safe, Awake, Work, Advanced, Below, RankOf, Weight, InFlight;
      FlightLowers(sys, e, Clean, a.choice, a.now);
    } else {
      NoChoice(sys.store, e, p, a.choice, a.now);
      assert Advanced(sys, a) == Advanced(sys, Advance(e, Clean, Look, 0));
      hide Safe, Awake, Advanced, Work, Gains, Nearer, Stage;
      if Stage(sys, e) >= 5 {
        Refresh(sys, e);
      } else {
        Press(sys, e);
      }
      NearerGains(sys, Advanced(sys, a), e);
    }
  }

  lemma LeavingGains(sys: System, a: Action, e: EnvKey)
    requires Tearing(sys.store, e) && Inside(sys, e) && Acts(sys, a, e, Leaving)
    ensures Gains(sys, Advanced(sys, a), e)
  {
    var turn := Work(sys.store, e, sys.procs[e], a.fate, a.choice, a.now);
    OwnFlight(sys.store, e, sys.procs[e], a.fate, a.choice, a.now);
    assert Weight(turn.next) < InFlight(sys.procs, e) by {
      hide Work, Wakes;
    }
    hide Work, Advanced, Below, RankOf, Weight, InFlight, Inside;
    FlightLowers(sys, e, a.fate, a.choice, a.now);
  }

  lemma ActsGain(sys: System, a: Action, e: EnvKey)
    requires Reachable(sys) && Tearing(sys.store, e) && Calm(a, e) && Acts(sys, a, e, Due(sys, e))
    ensures Gains(sys, Advanced(sys, a), e)
  {
    ReachableAwake(sys);
    DueWaits(sys, e);
    hide Reachable, Safe, Awake, Advanced, Nearer, RankOf, Below, Stage;
    match Due(sys, e)
    case Worker => WorkerGains(sys, a, e);
    case Leaving => LeavingGains(sys, a, e);
    case Cleaner => EffectiveLowers(sys, a, e);
    case _ =>
      Resume(sys, e, a);
      NearerGains(sys, Advanced(sys, a), e);
  }

  // ----- everybody else's turns -----

  // A step that is not the worker's own leaves it where it is.
  ghost predicate WorkerStays(sys: System, after: System, e: EnvKey) {
    && (e in after.procs <==> e in sys.procs) && (e in sys.procs ==> after.procs[e] == sys.procs[e])
    && RecordAt(after.store, e) == RecordAt(sys.store, e)
    && (e in sys.queue ==> e in after.queue)
  }

  lemma OthersLeaveRecord(s: Store, a: Action, e: EnvKey)
    requires e in s.records && Calm(a, e)
    ensures RecordAt(Others(s, a), e) == RecordAt(s, e)
  {
    hide ClaimedBy, EnvLabels, TargetNamespace;
  }

  lemma AfterStays(sys: System, e: EnvKey, f: EnvKey, queue: set<EnvKey>, turn: Turn)
    requires f != e && RecordAt(turn.store, e) == RecordAt(sys.store, e) && (e in sys.queue ==> e in queue)
    ensures WorkerStays(sys, After(sys, f, queue, turn), e)
  {
    hide Wakes, RecordAt;
  }

  lemma OtherStays(sys: System, a: Action, e: EnvKey)
    requires e in sys.store.records && Calm(a, e)
    requires !(a.Advance? && a.e == e) && !(a.Take? && a.e == e)
    ensures WorkerStays(sys, Advanced(sys, a), e)
  {
    match a
    case Advance(f, fate, choice, now) =>
      if f in sys.procs {
        OthersRecords(sys.store, f, sys.procs[f], fate, choice, now);
        hide Work, After, WorkerStays, RecordAt;
        AfterStays(sys, e, f, sys.queue, Work(sys.store, f, sys.procs[f], fate, choice, now));
      } else {
        StaysSame(sys, e);
      }
    case Take(f, fate) =>
      hide Start, After, WorkerStays, RecordAt;
      if f in sys.queue && f !in sys.procs {
        AfterStays(sys, e, f, sys.queue - {f}, Turn(sys.store, Start(sys.store, f, fate)));
      } else {
        StaysSame(sys, e);
      }
    case Fire(_) =>
    case _ =>
      OthersLeaveRecord(sys.store, a, e);
      hide Others, Wakes, RecordAt;
  }

  lemma StaysSame(sys: System, e: EnvKey)
    ensures WorkerStays(sys, sys, e)
  {
  }

  // So it does not fall back, unless the rank has gone down.
  lemma KeepsPace(sys: System, after: System, e: EnvKey)
    requires Tearing(sys.store, e) && WorkerStays(sys, after, e) && RankOf(after, e) == RankOf(sys, e)
    ensures Gains(sys, after, e) || Abreast(sys, after, e)
  {
    hide NsPhase, Left, InFlight;
  }

  // While a pass is in the namespace, or the namespace is going, the rank
  // tells all.
  lemma RankTells(sys: System, after: System, e: EnvKey)
    requires Tearing(sys.store, e) && RankOf(after, e) == RankOf(sys, e)
    requires Due(sys, e) == Leaving || Due(sys, e) == Cleaner
    ensures Abreast(sys, after, e)
  {
    hide NsPhase, Left;
  }

  // The worker's own turn when it is not what the teardown waits for.
  lemma IdleTurn(sys: System, a: Action, e: EnvKey)
    requires Tearing(sys.store, e) && ((a.Advance? && a.e == e) || (a.Take? && a.e == e))
    requires RankOf(Advanced(sys, a), e) == RankOf(sys, e) && !Acts(sys, a, e, Due(sys, e))
    ensures Abreast(sys, Advanced(sys, a), e)
  {
    if Due(sys, e) == Leaving || Due(sys, e) == Cleaner {
      hide Advanced, Due, Abreast, RankOf, Tearing;
      RankTells(sys, Advanced(sys, a), e);
    } else {
      assert Advanced(sys, a) == sys by {
        hide After, Work, Start, NsPhase, RankOf, InFlight;
      }
      hide Advanced, Due, Pace, RankOf;
    }
  }

  lemma OthersKeepPace(sys: System, a: Action, e: EnvKey)
    requires Reachable(sys) && Tearing(sys.store, e) && Calm(a, e) && !Acts(sys, a, e, Due(sys, e))
    ensures Gains(sys, Advanced(sys, a), e) || Abreast(sys, Advanced(sys, a), e)
  {
    var after := Advanced(sys, a);
    NeverBackwards(sys, a, e);
    hide Reachable, Advanced, Below, Stage, Due;
    if RankOf(after, e) == RankOf(sys, e) {
      if (a.Advance? || a.Take?) && a.e == e {
        IdleTurn(sys, a, e);
      } else {
        OtherStays(sys, a, e);
        KeepsPace(sys, after, e);
      }
    }
  }

  // ----- every fair run -----

  // Whoever the teardown waits for acts in the end, and that is a gain, if
  // there has been none before.
  lemma {:induction false} Waits(run: nat -> System, act: nat -> Action, e: EnvKey, n: nat, m: nat) returns (k: nat)
    requires Endless(run, act) && CalmFrom(act, e, n) && n <= m
    requires Reachable(run(n)) && Tearing(run(n).store, e) && Turns(run, act, e, Due(run(n), e), m)
    ensures k > n && Gains(run(n), run(k), e)
    decreases m - n
  {
    assert run(n + 1) == Advanced(run(n), act(n));
    ReachableAwake(run(n));
    DueWaits(run(n), e);
    hide Safe, Awake, Waiting, Acts, RankOf, Below, Pace, Due, Tearing, Advanced, Calm;
    assert Calm(act(n), e);
    k := n + 1;
    if Acts(run(n), act(n), e, Due(run(n), e)) {
      ActsGain(run(n), act(n), e);
    } else {
      OthersKeepPace(run(n), act(n), e);
      if !Gains(run(n), run(n + 1), e) {
        ReachableOn(run(n), act(n));
        k := Waits(run, act, e, n + 1, m);
      }
    }
  }

  lemma {:induction false} ReleasedFrom(run: nat -> System, act: nat -> Action, e: EnvKey, n: nat) returns (k: nat)
    requires Endless(run, act) && NotAnew(act, e) && CalmFrom(act, e, n) && Fair(run, act, e)
    requires Reachable(run(n)) && (Tearing(run(n).store, e) || Ended(run(n).store, e))
    ensures Ended(run(k).store, e)
    decreases RankOf(run(n), e).unreleased, RankOf(run(n), e).inFlight, RankOf(run(n), e).phase, RankOf(run(n), e).left,
              Pace(run(n), e)
  {
    k := n;
    if Tearing(run(n).store, e) {
      assert TurnComes(run, act, e, Due(run(n), e), n);
      var m: nat :| m >= n && Turns(run, act, e, Due(run(n), e), m);
      var j := Waits(run, act, e, n, m);
      Onwards(run, act, e, n, j);
      hide Reachable, RankOf, Tearing, Ended, Endless, NotAnew, Fair, Due, Turns, Pace;
      k := ReleasedFrom(run, act, e, j);
    }
  }

  // On every endless fair run on which from some point on the controller stays
  // up, the record is left alone and its worker's requests are answered -
  // before that anything may happen, and everybody else may go on as they like
  // - a record that is being deleted is released in the end, and stays so.
  lemma TeardownTerminates(run: nat -> System, act: nat -> Action, e: EnvKey, n: nat)
    requires Endless(run, act) && NotAnew(act, e) && Tearing(run(0).store, e)
    requires Fair(run, act, e) && CalmFrom(act, e, n)
    ensures exists k: nat :: EndedFrom(run, e, k)
  {
    Onwards(run, act, e, 0, n);
    var k := ReleasedFrom(run, act, e, n);
    hide Endless, NotAnew, Fair, CalmFrom, Tearing, Ended, Reachable, RankOf, Below;
    forall m: nat | m >= k ensures Ended(run(m).store, e) {
      StaysEnded(run, act, e, k, m);
    }
    assert EndedFrom(run, e, k);
  }

  // ----- such runs exist -----

  // An action that is w's turn, if w waits.
  ghost function Pick(sys: System, e: EnvKey, w: Whose): Action {
    match w
    case Queue => Take(e, Clean)
    case Timer => Fire(e)
    case Cleaner =>
      if !Waiting(sys, e, w) then Fire(e)
      else if Content(sys.store, TargetOf(sys.store, e)) == {} then RemoveNamespace(TargetOf(sys.store, e))
      else
        var k :| k in Content(sys.store, TargetOf(sys.store, e));
        ChangeObject(k, None)
    case _ => Advance(e, Clean, Fail(CallFailed(Forbidden)), 0)
  }

  lemma PickActs(sys: System, e: EnvKey, w: Whose)
    ensures Waiting(sys, e, w) ==> Acts(sys, Pick(sys, e, w), e, w)
    ensures Calm(Pick(sys, e, w), e) && !Pick(sys, e, w).CreateRecord?
  {
    hide FailedStatus, Wakes, OwnedBy, TargetNamespace;
  }

  function Round(n: nat): Whose {
    match n % 5
    case 0 => Worker
    case 1 => Leaving
    case 2 => Queue
    case 3 => Timer
    case _ => Cleaner
  }

  lemma RoundComes(w: Whose, n: nat) returns (m: nat)
    ensures m >= n && Round(m) == w
  {
    m := 5 * n + match w case Worker => 0 case Leaving => 1 case Queue => 2 case Timer => 3 case Cleaner => 4;
  }

  ghost function Scheduled(sys: System, e: EnvKey, n: nat): System {
    if n == 0 then sys
    else var before := Scheduled(sys, e, n - 1); Advanced(before, Pick(before, e, Round(n - 1)))
  }

  // From every reachable state, taking turns is such a run.
  lemma FairRunExists(sys: System, e: EnvKey) returns (run: nat -> System, act: nat -> Action)
    requires Reachable(sys)
    ensures run(0) == sys && Endless(run, act) && NotAnew(act, e) && CalmFrom(act, e, 0) && Fair(run, act, e)
  {
    run := (n: nat) => Scheduled(sys, e, n);
    act := (n: nat) => Pick(Scheduled(sys, e, n), e, Round(n));
    hide Reachable, Advanced, Pick, Waiting, Acts, Calm;
    forall n: nat ensures Calm(act(n), e) && !act(n).CreateRecord? {
      PickActs(run(n), e, Round(n));
    }
    forall w, n: nat ensures TurnComes(run, act, e, w, n) {
      var m := RoundComes(w, n);
      PickActs(run(m), e, w);
      assert Turns(run, act, e, w, m);
    }
  }
}
