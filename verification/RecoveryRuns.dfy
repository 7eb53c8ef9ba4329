/** Whole runs of the restart-budget controller: what holds after any sequence of timed
    operations on a fresh state (`src/daemon_recovery.rs`). */
module RecoveryRuns {
  import opened Prelude
  import opened RecoveryState
  import opened Machine

  datatype Op = RecordFault(fault: Fault) | AdmitStart | RecordRecovered | TakeSnapshot
  datatype Event = Event(op: Op, at: u64)
  type Run = seq<Event>

  function Step(s: State, e: Event): State {
    match e.op
    case RecordFault(fault) => AfterFault(s, fault, e.at)
    case AdmitStart => AfterAdmit(s, e.at)
    case RecordRecovered => AfterRecovered(s, e.at)
    case TakeSnapshot => Prune(s, e.at)
  }

  /** The decision an event returns; recoveries and snapshots return none. */
  function Decide(s: State, e: Event): seq<Decision> {
    match e.op
    case RecordFault(fault) => [FaultDecision(s, fault, e.at)]
    case AdmitStart => [AdmitDecision(s, e.at)]
    case _ => []
  }

  /** The fault an event charges to the budget: a report during a cooldown charges nothing. */
  function Charge(s: State, e: Event): seq<FaultRecord> {
    if e.op.RecordFault? && !Frozen(s, e.at)
    then [FaultRecord(e.op.fault, e.at, s.generationId)] else []
  }

  function Exec(s: State, run: Run): State {
    Play(Step, s, run)
  }

  function Decisions(s: State, run: Run): seq<Decision> {
    Collect(Step, Decide, s, run)
  }

  function Charged(s: State, run: Run): seq<FaultRecord> {
    Collect(Step, Charge, s, run)
  }

  predicate Monotone(run: Run) {
    forall i, j :: 0 <= i < j < |run| ==> run[i].at <= run[j].at
  }

  predicate Until(run: Run, t: int) {
    forall i :: 0 <= i < |run| ==> run[i].at <= t
  }

  // --- The shape of reachable states and the frozen cooldown ---

  lemma PruneKeepsShape(s: State, now: u64)
    requires Shape(s)
    ensures Shape(Prune(s, now)) && (Prune(s, now).phase.Cooldown? ==> Frozen(s, now))
  {
  }

  lemma RecoveryKeepsShape(s: State, now: u64)
    requires Shape(s)
    ensures Shape(AfterRecovered(s, now))
  {
    PruneKeepsShape(s, now);
  }

  lemma StepKeepsShape(s: State, e: Event)
    requires Shape(s)
    ensures Shape(Step(s, e))
  {
    PruneKeepsShape(s, e.at);
    match e.op
    case RecordFault(fault) =>
      if !Frozen(s, e.at) {
        ChargedState(s, Prune(s, e.at), fault, e.at);
      }
    case RecordRecovered => RecoveryKeepsShape(s, e.at);
    case _ =>
  }

  /** No clock assumption: even with a clock that jumps backwards, a reachable state is in
      cooldown exactly when it holds the three faults that spent the budget. */
  lemma {:induction false} ReachableShape(run: Run)
    ensures Shape(Exec(DEFAULT, run))
  {
    if run == [] {
    } else {
      ReachableShape(run[..|run| - 1]);
      StepKeepsShape(Exec(DEFAULT, run[..|run| - 1]), run[|run| - 1]);
    }
  }

  /** Once a run has entered cooldown, no operation before the deadline changes anything, and
      the next admission is allowed exactly from the third fault's time plus 900 seconds. */
  lemma {:induction false} CooldownIsFrozen(before: Run, during: Run, now: u64)
    requires Exec(DEFAULT, before).phase.Cooldown?
    requires forall i :: 0 <= i < |during| ==> during[i].at < Exec(DEFAULT, before).cooldownUntil
    ensures var s := Exec(DEFAULT, before);
            && Exec(DEFAULT, before + during) == s
            && |s.faults| == 3
            && (AdmitDecision(Exec(DEFAULT, before + during), now).RestartAllowed?
                <==> now >= SatAdd(s.faults[2].at, RESTART_COOLDOWN_SECS))
  {
    ReachableShape(before);
    if during == [] {
      assert before + during == before;
    } else {
      var front := during[..|during| - 1];
      CooldownIsFrozen(before, front, now);
      assert before + during == (before + front) + [during[|during| - 1]];
      PlayAppend(Step, DEFAULT, before + front, during[|during| - 1]);
    }
  }

  // --- Snapshots are invisible ---

  /** Pruning twice with a clock that did not go back is pruning once. */
  lemma PruneAbsorbs(s: State, t1: u64, t2: u64)
    requires t1 <= t2
    ensures Prune(Prune(s, t1), t2) == Prune(s, t2)
  {
    FilterAbsorbs(s.faults, RecentAt(t1), RecentAt(t2));
  }

  lemma FaultSeesPruned(s: State, p: State, fault: Fault, now: u64)
    requires p == Prune(s, now) && Prune(p, now) == p && Frozen(p, now) == Frozen(s, now)
    ensures AfterFault(p, fault, now) == AfterFault(s, fault, now)
  {
  }

  lemma RecoverySeesPruned(s: State, p: State, now: u64)
    requires p == Prune(s, now) && Prune(p, now) == p
    ensures AfterRecovered(p, now) == AfterRecovered(s, now)
  {
  }

  lemma StepSeesPruned(s: State, e: Event)
    ensures Step(Prune(s, e.at), e) == Step(s, e)
    ensures e.op.RecordFault? ==>
              FaultDecision(Prune(s, e.at), e.op.fault, e.at) == FaultDecision(s, e.op.fault, e.at)
    ensures AdmitDecision(Prune(s, e.at), e.at) == AdmitDecision(s, e.at)
  {
    var p := Prune(s, e.at);
    PruneAbsorbs(s, e.at, e.at);
    assert Frozen(p, e.at) == Frozen(s, e.at);
    match e.op
    case RecordFault(fault) => FaultSeesPruned(s, p, fault, e.at);
    case RecordRecovered => RecoverySeesPruned(s, p, e.at);
    case _ =>
  }

  function NotSnapshot(): Event -> bool {
    (e: Event) => !e.op.TakeSnapshot?
  }

  /** Deleting every snapshot from a run changes no decision, and the two final states cannot
      be told apart by anything that looks at them from then on. */
  lemma {:induction false} SnapshotsAreInvisible(s: State, run: Run, t: u64)
    requires Monotone(run) && Until(run, t)
    ensures Decisions(s, run) == Decisions(s, Filter(run, NotSnapshot()))
    ensures Prune(Exec(s, run), t) == Prune(Exec(s, Filter(run, NotSnapshot())), t)
  {
    if run == [] {
    } else {
      var front, e := run[..|run| - 1], run[|run| - 1];
      SnapshotsAreInvisible(s, front, e.at);
      var s1, s2 := Exec(s, front), Exec(s, Filter(front, NotSnapshot()));
      if e.op.TakeSnapshot? {
        PruneAbsorbs(s1, e.at, t);
        PruneAbsorbs(s2, e.at, t);
      } else {
        StepSeesPruned(s1, e);
        StepSeesPruned(s2, e);
        var kept := Filter(front, NotSnapshot());
        assert (kept + [e])[..|kept|] == kept;
      }
    }
  }

  /** Two runs that differ only in where snapshots were taken return the same decisions. */
  lemma SnapshotPlacementIsIrrelevant(s: State, run1: Run, run2: Run)
    requires Monotone(run1) && Monotone(run2)
    requires Filter(run1, NotSnapshot()) == Filter(run2, NotSnapshot())
    ensures Decisions(s, run1) == Decisions(s, run2)
  {
    SnapshotsAreInvisible(s, run1, U64_MAX);
    SnapshotsAreInvisible(s, run2, U64_MAX);
  }

  // --- The rolling budget ---

  /** Faults of generation `g` no older than `from`. */
  function Since(g: u64, from: int): FaultRecord -> bool {
    (r: FaultRecord) => r.generation == g && r.at >= from
  }

  /** Faults of generation `g` inside the closed 600-second window that starts at `w`. */
  function InWindow(g: u64, w: int): FaultRecord -> bool {
    (r: FaultRecord) => r.generation == g && w <= r.at <= w + RESTART_WINDOW_SECS
  }

  ghost predicate WithinBudget(history: seq<FaultRecord>, g: u64) {
    forall w: int {:trigger InWindow(g, w)} :: |Filter(history, InWindow(g, w))| <= MAX_RESTARTS_PER_WINDOW
  }

  /** Ties a state to the faults charged so far: the history is not ahead of the clock or of the
      generation; a cooldown's deadline covers all of it; and outside a cooldown the state still
      holds every fault of the current generation that is less than a window old. */
  ghost predicate Tracks(s: State, history: seq<FaultRecord>, now: u64) {
    && Shape(s)
    && (forall r :: r in history ==> r.at <= now && r.generation <= s.generationId)
    && (forall r :: r in s.faults ==> r in history)
    && (s.phase.Cooldown? ==> forall r :: r in history ==> r.at <= s.faults[2].at)
    && (!s.phase.Cooldown? && s.generationId >= 1 ==> SameRecent(s, history, now))
  }

  predicate SameRecent(s: State, history: seq<FaultRecord>, now: u64) {
    var p := Since(s.generationId, now - RESTART_WINDOW_SECS);
    Filter(history, p) == Filter(s.faults, p)
  }

  lemma PruneKeepsTracking(s: State, history: seq<FaultRecord>, now: u64, later: u64)
    requires Tracks(s, history, now) && now <= later < U64_MAX
    ensures Tracks(Prune(s, later), history, later)
  {
    var g := s.generationId;
    var wide, narrow := Since(g, now - RESTART_WINDOW_SECS), Since(g, later - RESTART_WINDOW_SECS);
    if !s.phase.Cooldown? {
      FilterAbsorbs(history, wide, narrow);
      FilterAbsorbs(s.faults, wide, narrow);
      FilterAbsorbs(s.faults, RecentAt(later), narrow);
    } else if later >= s.cooldownUntil {
      FilterNone(history, narrow);
    }
  }

  /** A charge appears in both the history and the state's own list. */
  lemma ChargeKeepsRecent(s: State, history: seq<FaultRecord>, x: FaultRecord, now: u64)
    requires SameRecent(s, history, now)
    ensures var p := Since(s.generationId, now - RESTART_WINDOW_SECS);
            Filter(history + [x], p) == Filter(s.faults + [x], p)
  {
    var p := Since(s.generationId, now - RESTART_WINDOW_SECS);
    FilterAppend(history, x, p);
    FilterAppend(s.faults, x, p);
  }

  /** The state a charge leaves, in terms of the pruned one. */
  lemma ChargedState(s: State, p: State, fault: Fault, now: u64)
    requires p == Prune(s, now) && Shape(p) && !p.phase.Cooldown? && !Frozen(s, now)
    ensures var t := AfterFault(s, fault, now);
            && Shape(t) && t.generationId == p.generationId
            && t.faults == p.faults + [FaultRecord(fault, now, p.generationId)]
            && (t.phase.Cooldown? ==> t.faults[2].at == now)
  {
  }

  lemma ChargeKeepsTracking(s: State, history: seq<FaultRecord>, fault: Fault, now: u64)
    requires Tracks(s, history, now) && !s.phase.Cooldown? && s == Prune(s, now)
    ensures Tracks(AfterFault(s, fault, now), history + [FaultRecord(fault, now, s.generationId)], now)
  {
    var x := FaultRecord(fault, now, s.generationId);
    ChargedState(s, s, fault, now);
    if s.generationId >= 1 {
      ChargeKeepsRecent(s, history, x, now);
    }
    assert forall r :: r in history + [x] <==> r in history || r == x;
  }

  lemma ChargeKeepsWindow(s: State, history: seq<FaultRecord>, x: FaultRecord, g: u64, w: int)
    requires Tracks(s, history, x.at) && !s.phase.Cooldown? && x.generation == s.generationId
    requires g >= 1 && |Filter(history, InWindow(g, w))| <= MAX_RESTARTS_PER_WINDOW
    ensures |Filter(history + [x], InWindow(g, w))| <= MAX_RESTARTS_PER_WINDOW
  {
    FilterAppend(history, x, InWindow(g, w));
    if InWindow(g, w)(x) {
      FilterMonotone(history, InWindow(g, w), Since(g, x.at - RESTART_WINDOW_SECS));
    }
  }

  lemma ChargeKeepsBudget(s: State, history: seq<FaultRecord>, x: FaultRecord, g: u64)
    requires Tracks(s, history, x.at) && !s.phase.Cooldown? && x.generation == s.generationId
    requires g >= 1 && WithinBudget(history, g)
    ensures WithinBudget(history + [x], g)
  {
    forall w: int ensures |Filter(history + [x], InWindow(g, w))| <= MAX_RESTARTS_PER_WINDOW {
      ChargeKeepsWindow(s, history, x, g, w);
    }
  }

  lemma AdmitKeepsTracking(s: State, history: seq<FaultRecord>, now: u64)
    requires Tracks(s, history, now) && s == Prune(s, now)
    ensures Tracks(AfterAdmit(s, now), history, now)
  {
    var t := AfterAdmit(s, now);
    if t.generationId != s.generationId {
      FilterNone(history, Since(t.generationId, now - RESTART_WINDOW_SECS));
      FilterNone(s.faults, Since(t.generationId, now - RESTART_WINDOW_SECS));
    }
  }

  lemma RecoveryKeepsTracking(s: State, history: seq<FaultRecord>, now: u64)
    requires Tracks(s, history, now) && s == Prune(s, now)
    ensures Tracks(AfterRecovered(s, now), history, now)
  {
    FilterAbsorbs(s.faults, OfGeneration(s.generationId), Since(s.generationId, now - RESTART_WINDOW_SECS));
  }

  lemma StepKeepsTracking(s: State, history: seq<FaultRecord>, now: u64, e: Event)
    requires Tracks(s, history, now) && now <= e.at < U64_MAX
    ensures Tracks(Step(s, e), history + Charge(s, e), e.at)
    ensures forall g: u64 :: g >= 1 && WithinBudget(history, g) ==> WithinBudget(history + Charge(s, e), g)
  {
    assert history + [] == history;
    var p := Prune(s, e.at);
    PruneKeepsTracking(s, history, now, e.at);
    PruneAbsorbs(s, e.at, e.at);
    StepSeesPruned(s, e);
    match e.op
    case TakeSnapshot =>
    case AdmitStart => AdmitKeepsTracking(p, history, e.at);
    case RecordRecovered => RecoveryKeepsTracking(p, history, e.at);
    case RecordFault(fault) =>
      if !Frozen(s, e.at) {
        ChargeKeepsTracking(p, history, fault, e.at);
        forall g: u64 | g >= 1 && WithinBudget(history, g) ensures WithinBudget(history + Charge(s, e), g) {
          ChargeKeepsBudget(p, history, FaultRecord(fault, e.at, s.generationId), g);
        }
      }
  }

  lemma {:induction false} RunKeepsTracking(run: Run, t: u64)
    requires Monotone(run) && Until(run, t) && t < U64_MAX
    ensures Tracks(Exec(DEFAULT, run), Charged(DEFAULT, run), if run == [] then 0 else run[|run| - 1].at)
    ensures forall g: u64 :: g >= 1 ==> WithinBudget(Charged(DEFAULT, run), g)
  {
    if run == [] {
    } else {
      var front, e := run[..|run| - 1], run[|run| - 1];
      RunKeepsTracking(front, t);
      StepKeepsTracking(Exec(DEFAULT, front), Charged(DEFAULT, front),
                        if front == [] then 0 else front[|front| - 1].at, e);
    }
  }

  /** The budget holds for generation `g` in every clock-monotone run whose clock stays at or below `cap`. */
  ghost predicate BudgetHolds(g: u64, cap: u64) {
    forall run: Run :: Monotone(run) && Until(run, cap) ==> WithinBudget(Charged(DEFAULT, run), g)
  }

  function Repeat(e: Event, n: nat): (r: Run)
    ensures |r| == n && forall i :: 0 <= i < n ==> r[i] == e
  {
    if n == 0 then [] else Repeat(e, n - 1) + [e]
  }

  /** A state in generation `g` with an unspent budget. */
  predicate Unspent(s: State, g: u64) {
    s.generationId == g && !s.phase.Cooldown? && s.faults == []
  }

  lemma AdmitStep(s: State, e: Event, g: u64)
    requires Unspent(s, g) && e.op.AdmitStart? && g < U64_MAX
    ensures Unspent(Step(s, e), g + 1) && Charge(s, e) == []
  {
  }

  lemma {:induction false} AdmitsRaiseGeneration(s: State, e: Event, g: u64)
    requires Unspent(s, 0) && e.op.AdmitStart?
    ensures Unspent(Exec(s, Repeat(e, g)), g) && Charged(s, Repeat(e, g)) == []
    decreases g
  {
    if g == 0 {
    } else {
      AdmitsRaiseGeneration(s, e, g - 1);
      AdmitStep(Exec(s, Repeat(e, g - 1)), e, g - 1);
      PlayAppend(Step, s, Repeat(e, g - 1), e);
      CollectAppend(Step, Charge, s, Repeat(e, g - 1), e);
    }
  }

  /** Two reports in one second spend two thirds of a fresh budget. */
  lemma TwoFaults(s: State, e: Event, x: FaultRecord)
    requires s.faults == [] && !s.phase.Cooldown?
    requires e.op.RecordFault? && x == FaultRecord(e.op.fault, e.at, s.generationId)
    ensures Charged(s, [e, e]) == [x, x]
    ensures var t := Exec(s, [e, e]);
            t == State(Recovering, [x, x], s.cooldownUntil, Some(x.fault), s.generationId)
  {
    FilterAll([x], RecentAt(x.at));
    CollectPair(Step, Charge, s, e, e);
    assert Step(s, e).faults == [x];
  }

  /** In the clock's last second the deadline saturates to that same second: the report that
      spends the budget and the one after it are both charged. */
  lemma TwoMoreFaultsAtClockEnd(s: State, e: Event, x: FaultRecord)
    requires s.faults == [x, x] && !s.phase.Cooldown?
    requires e.op.RecordFault? && x == FaultRecord(e.op.fault, e.at, s.generationId) && e.at == U64_MAX
    ensures Charged(s, [e, e]) == [x, x]
  {
    FilterAll([x, x], RecentAt(x.at));
    CollectPair(Step, Charge, s, e, e);
    var t := Step(s, e);
    assert t.cooldownUntil == SatAdd(e.at, RESTART_COOLDOWN_SECS) && !Frozen(t, e.at);
  }

  lemma FourRecordsBreakBudget(history: seq<FaultRecord>, x: FaultRecord)
    requires history == [x, x] + [x, x]
    ensures !WithinBudget(history, x.generation)
  {
    FilterAll(history, InWindow(x.generation, x.at));
  }

  lemma TwoPairs(s: State, a: Run, b: Run, x: FaultRecord)
    requires Charged(s, a) == [x, x] && Charged(Exec(s, a), b) == [x, x]
    ensures !WithinBudget(Charged(s, a + b), x.generation)
  {
    CollectConcat(Step, Charge, s, a, b);
    FourRecordsBreakBudget(Charged(s, a + b), x);
  }

  /** Before any admission a recovery report wipes the budget, so four faults fit in one second. */
  lemma ChargedAroundRecovery(f: Event, r: Event, x: FaultRecord)
    requires f.op.RecordFault? && r == Event(RecordRecovered, f.at) && x == FaultRecord(f.op.fault, f.at, 0)
    ensures !WithinBudget(Charged(DEFAULT, [f, f] + [r] + [f, f]), 0)
  {
    TwoFaults(DEFAULT, f, x);
    PlayAppend(Step, DEFAULT, [f, f], r);
    CollectAppend(Step, Charge, DEFAULT, [f, f], r);
    var s := Exec(DEFAULT, [f, f] + [r]);
    assert s.faults == [] && s.phase.Healthy? && s.generationId == 0;
    TwoFaults(s, f, x);
    TwoPairs(DEFAULT, [f, f] + [r], [f, f], x);
  }

  lemma GenerationZeroEscapes(f: Event, r: Event, cap: u64)
    requires f == Event(RecordFault(WriteStall), 0) && r == Event(RecordRecovered, 0)
    ensures !BudgetHolds(0, cap)
  {
    ChargedAroundRecovery(f, r, FaultRecord(WriteStall, 0, 0));
    assert Monotone([f, f] + [r] + [f, f]) && Until([f, f] + [r] + [f, f], cap);
  }

  lemma ChargedAtClockEnd(prefix: Run, e: Event, x: FaultRecord)
    requires Charged(DEFAULT, prefix) == []
    requires var s := Exec(DEFAULT, prefix); s.faults == [] && !s.phase.Cooldown? && s.generationId == x.generation
    requires e == Event(RecordFault(x.fault), x.at) && x.at == U64_MAX
    ensures !WithinBudget(Charged(DEFAULT, (prefix + [e, e]) + [e, e]), x.generation)
  {
    var s := Exec(DEFAULT, prefix);
    TwoFaults(s, e, x);
    TwoMoreFaultsAtClockEnd(Exec(s, [e, e]), e, x);
    CollectConcat(Step, Charge, DEFAULT, prefix, [e, e]);
    PlayConcat(Step, DEFAULT, prefix, [e, e]);
    TwoPairs(DEFAULT, prefix + [e, e], [e, e], x);
  }

  lemma ClockEndEscapes(g: u64, e: Event)
    requires e == Event(RecordFault(WriteStall), U64_MAX)
    ensures !BudgetHolds(g, U64_MAX)
  {
    var prefix := Repeat(Event(AdmitStart, 0), g);
    AdmitsRaiseGeneration(DEFAULT, Event(AdmitStart, 0), g);
    ChargedAtClockEnd(prefix, e, FaultRecord(WriteStall, U64_MAX, g));
    EarlyThenLate(prefix, e);
  }

  lemma EarlyThenLate(prefix: Run, e: Event)
    requires forall i :: 0 <= i < |prefix| ==> prefix[i].at == 0
    ensures Monotone((prefix + [e, e]) + [e, e]) && Until((prefix + [e, e]) + [e, e], e.at)
  {
  }

  /** Exactly when the budget promise holds: at most three charged faults of one generation fall in
      any 600-second window if and only if the generation was admitted (epoch at least 1) and the
      clock never reads `u64::MAX`, where the saturated deadline expires at once. */
  lemma BudgetHoldsExactly(g: u64, cap: u64)
    ensures BudgetHolds(g, cap) <==> g >= 1 && cap < U64_MAX
  {
    if g == 0 {
      GenerationZeroEscapes(Event(RecordFault(WriteStall), 0), Event(RecordRecovered, 0), cap);
    } else if cap == U64_MAX {
      ClockEndEscapes(g, Event(RecordFault(WriteStall), U64_MAX));
    } else {
      forall run: Run | Monotone(run) && Until(run, cap)
        ensures WithinBudget(Charged(DEFAULT, run), g)
      {
        RunKeepsTracking(run, cap);
      }
    }
  }

  // --- A recovery forgives ---

  lemma FaultAdds(s: State, fault: Fault, now: u64)
    ensures forall r :: r in AfterFault(s, fault, now).faults ==>
              r in s.faults || (!Frozen(s, now) && r == FaultRecord(fault, now, s.generationId))
  {
    var p := Prune(s, now);
    assert forall r :: r in p.faults ==> r in s.faults;
  }

  lemma StepAdds(s: State, e: Event)
    ensures forall r :: r in Step(s, e).faults ==> r in s.faults || r in Charge(s, e)
  {
    if e.op.RecordFault? {
      FaultAdds(s, e.op.fault, e.at);
    }
  }

  /** Whatever the clock does, a state holds only faults that were charged. */
  lemma {:induction false} FaultsWereCharged(run: Run, r: FaultRecord)
    requires r in Exec(DEFAULT, run).faults
    ensures r in Charged(DEFAULT, run)
  {
    if run == [] {
    } else {
      var front, e := run[..|run| - 1], run[|run| - 1];
      StepAdds(Exec(DEFAULT, front), e);
      if r in Exec(DEFAULT, front).faults {
        FaultsWereCharged(front, r);
      }
    }
  }

  lemma NothingOfThisGeneration(s: State, now: u64)
    requires !Frozen(s, now) && forall r :: r in s.faults ==> r.generation != s.generationId
    ensures AfterRecovered(s, now).phase.Healthy? && |AfterRecovered(s, now).faults| == 0
  {
    var p := Prune(s, now);
    FilterNone(p.faults, OfGeneration(p.generationId));
  }

  lemma FirstFaultIsAllowed(s: State, fault: Fault, now: u64)
    requires !s.phase.Cooldown? && |s.faults| <= 1
    ensures FaultDecision(s, fault, now).RestartAllowed?
    ensures !AfterFault(s, fault, now).phase.Cooldown? && |AfterFault(s, fault, now).faults| <= |s.faults| + 1
  {
  }

  /** After any run, a recovery outside a cooldown forgives what earlier generations were charged: if the current
      generation was charged nothing, the next two faults are allowed, whenever they come. */
  lemma RecoveryForgives(run: Run, recovery: Event, first: Event, second: Event)
    requires recovery.op.RecordRecovered? && first.op.RecordFault? && second.op.RecordFault?
    requires var s := Exec(DEFAULT, run);
             !Frozen(s, recovery.at) && forall r :: r in Charged(DEFAULT, run) ==> r.generation != s.generationId
    ensures var s := Exec(DEFAULT, run + [recovery]);
            && s.phase.Healthy? && FaultDecision(s, first.op.fault, first.at).RestartAllowed?
            && FaultDecision(Step(s, first), second.op.fault, second.at).RestartAllowed?
  {
    var s := Exec(DEFAULT, run);
    forall r | r in s.faults ensures r.generation != s.generationId {
      FaultsWereCharged(run, r);
    }
    NothingOfThisGeneration(s, recovery.at);
    PlayAppend(Step, DEFAULT, run, recovery);
    FirstFaultIsAllowed(Step(s, recovery), first.op.fault, first.at);
    FirstFaultIsAllowed(Step(Step(s, recovery), first), second.op.fault, second.at);
  }

  // --- All generations together ---

  function DuringWindow(w: u64): FaultRecord -> bool {
    (r: FaultRecord) => w <= r.at <= w + RESTART_WINDOW_SECS
  }

  /** `n` faults were charged since `w`: outside a cooldown the state still holds them all, and a
      cooldown they caused cannot end inside the window. */
  predicate Holds(s: State, n: nat, w: u64) {
    && Shape(s)
    && n <= MAX_RESTARTS_PER_WINDOW
    && (!s.phase.Cooldown? ==> n <= |Filter(s.faults, DuringWindow(w))|)
    && (s.phase.Cooldown? && n > 0 ==> s.cooldownUntil > w + RESTART_WINDOW_SECS || s.cooldownUntil == U64_MAX)
  }

  lemma PruneHolds(s: State, n: nat, w: u64, now: u64)
    requires Holds(s, n, w) && w <= now <= w + RESTART_WINDOW_SECS && now < U64_MAX
    ensures Holds(Prune(s, now), n, w)
  {
    FilterAbsorbs(s.faults, RecentAt(now), DuringWindow(w));
  }

  lemma ChargeHolds(s: State, n: nat, w: u64, fault: Fault, now: u64)
    requires Holds(s, n, w) && w <= now <= w + RESTART_WINDOW_SECS && !s.phase.Cooldown? && s == Prune(s, now)
    ensures Holds(AfterFault(s, fault, now), n + 1, w)
  {
    FilterAppend(s.faults, FaultRecord(fault, now, s.generationId), DuringWindow(w));
    assert |Filter(s.faults, DuringWindow(w))| <= |s.faults| <= 2;
  }

  lemma StepHolds(s: State, n: nat, w: u64, e: Event)
    requires Holds(s, n, w)
    requires w <= e.at <= w + RESTART_WINDOW_SECS && e.at < U64_MAX && !e.op.RecordRecovered?
    ensures Holds(Step(s, e), n + |Charge(s, e)|, w)
  {
    PruneHolds(s, n, w, e.at);
    if e.op.RecordFault? && !Frozen(s, e.at) {
      PruneAbsorbs(s, e.at, e.at);
      ChargeHolds(Prune(s, e.at), n, w, e.op.fault, e.at);
    }
  }

  /** A stretch of a run that stays inside one 600-second window and reports no recovery charges
      at most three faults over all generations, whatever happened before it. */
  lemma {:induction false} BudgetAcrossGenerations(before: Run, stretch: Run, w: u64)
    requires forall i :: 0 <= i < |stretch| ==> w <= stretch[i].at <= w + RESTART_WINDOW_SECS && stretch[i].at < U64_MAX
    requires forall i :: 0 <= i < |stretch| ==> !stretch[i].op.RecordRecovered?
    ensures |Charged(Exec(DEFAULT, before), stretch)| <= MAX_RESTARTS_PER_WINDOW
    ensures Holds(Exec(Exec(DEFAULT, before), stretch), |Charged(Exec(DEFAULT, before), stretch)|, w)
  {
    var s := Exec(DEFAULT, before);
    if stretch == [] {
      ReachableShape(before);
    } else {
      var front, e := stretch[..|stretch| - 1], stretch[|stretch| - 1];
      BudgetAcrossGenerations(before, front, w);
      StepHolds(Exec(s, front), |Charged(s, front)|, w, e);
    }
  }
}
