/** The persistent restart-budget state of `src/daemon_recovery.rs`: the pure meaning of each
    operation, and the class whose methods update the fields in place. */
module RecoveryState {
  import opened Prelude

  const RESTART_WINDOW_SECS: u64 := 600
  const RESTART_COOLDOWN_SECS: u64 := 900
  const MAX_RESTARTS_PER_WINDOW: nat := 3

  datatype Fault = DatabaseLocked | WriteStall | WriterLeaseLost
  datatype Phase = Healthy | Recovering | Cooldown
  datatype Decision = RestartAllowed | CooldownRequired
  datatype FaultRecord = FaultRecord(fault: Fault, at: u64, generation: u64)

  datatype State = State(
    phase: Phase,
    faults: seq<FaultRecord>,
    cooldownUntil: u64,
    lastFault: Option<Fault>,
    generationId: u64)

  datatype Snapshot = Snapshot(
    phase: Phase,
    recentFaultCount: nat,
    restartBudgetRemaining: nat,
    cooldownRemaining: nat,
    lastFault: Option<Fault>)

  const DEFAULT := State(Healthy, [], 0, None, 0)

  function RecentAt(now: u64): FaultRecord -> bool {
    (r: FaultRecord) => SatSub(now, r.at) <= RESTART_WINDOW_SECS
  }

  function OfGeneration(g: u64): FaultRecord -> bool {
    (r: FaultRecord) => r.generation == g
  }

  /** The state is in a cooldown whose deadline has not been reached. */
  predicate Frozen(s: State, now: u64) {
    s.phase.Cooldown? && now < s.cooldownUntil
  }

  function Prune(s: State, now: u64): State {
    if s.phase.Cooldown? then
      if now >= s.cooldownUntil then s.(phase := Healthy, cooldownUntil := 0, faults := Clear(s.faults)) else s
    else
      s.(faults := Filter(s.faults, RecentAt(now)))
  }

  function AfterFault(s: State, fault: Fault, now: u64): State {
    if Frozen(s, now) then s else
      var p := Prune(s, now);
      var faults := p.faults + [FaultRecord(fault, now, p.generationId)];
      if |faults| >= MAX_RESTARTS_PER_WINDOW then
        p.(lastFault := Some(fault), faults := faults, phase := Cooldown,
           cooldownUntil := SatAdd(now, RESTART_COOLDOWN_SECS))
      else
        p.(lastFault := Some(fault), faults := faults, phase := Recovering)
  }

  function AfterAdmit(s: State, now: u64): State {
    var p := Prune(s, now);
    if Frozen(p, now) then p else
      p.(cooldownUntil := if now >= p.cooldownUntil then 0 else p.cooldownUntil,
         phase := Recovering,
         generationId := SatAdd(p.generationId, 1))
  }

  function AfterRecovered(s: State, now: u64): State {
    var p := Prune(s, now);
    if p.phase.Cooldown? then p else
      var kept := if p.generationId > 0 then Filter(p.faults, OfGeneration(p.generationId)) else Clear(p.faults);
      if |kept| == 0 then
        p.(faults := kept, phase := Healthy, cooldownUntil := 0, lastFault := None)
      else
        p.(faults := kept, phase := Recovering, lastFault := Some(kept[|kept| - 1].fault))
  }

  function FaultDecision(s: State, fault: Fault, now: u64): Decision {
    if AfterFault(s, fault, now).phase.Cooldown? then CooldownRequired else RestartAllowed
  }

  function AdmitDecision(s: State, now: u64): Decision {
    if Frozen(s, now) then CooldownRequired else RestartAllowed
  }

  function Observe(s: State, now: u64): Snapshot {
    var p := Prune(s, now);
    Snapshot(
      p.phase, |p.faults|,
      if p.phase.Cooldown? then 0 else SatSub(MAX_RESTARTS_PER_WINDOW, |p.faults|),
      SatSub(p.cooldownUntil, now), p.lastFault)
  }

  /** What every reachable state looks like: a cooldown holds exactly the three faults that
      caused it and a deadline fixed by the third; outside a cooldown the budget is not spent. */
  predicate Shape(s: State) {
    if s.phase.Cooldown? then
      && |s.faults| == MAX_RESTARTS_PER_WINDOW
      && s.cooldownUntil == SatAdd(s.faults[2].at, RESTART_COOLDOWN_SECS)
      && s.cooldownUntil > 0
    else
      |s.faults| < MAX_RESTARTS_PER_WINDOW && s.cooldownUntil == 0
  }

  // --- What the operations promise, in plain terms ---

  /** Reported no more than 600 seconds before `now`. */
  function NotOlder(now: u64): FaultRecord -> bool {
    (r: FaultRecord) => now - r.at <= 600
  }

  /** The same, and charged to generation `g`. */
  function NotOlderIn(now: u64, g: u64): FaultRecord -> bool {
    (r: FaultRecord) => now - r.at <= 600 && r.generation == g
  }

  /** The state when an operation at `now` gets to work: an expired cooldown is over, otherwise old faults are gone. */
  ghost predicate Aged(s: State, now: u64, t: State) {
    if s.phase.Cooldown? then
      if now < s.cooldownUntil then t == s
      else |t.faults| == 0 && t == State(Healthy, t.faults, 0, s.lastFault, s.generationId)
    else Sifts(s.faults, NotOlder(now), t.faults) && t == s.(faults := t.faults)
  }

  lemma PruneAges(s: State, now: u64)
    ensures Aged(s, now, Prune(s, now))
  {
    FilterSifts(s.faults, RecentAt(now));
    SiftsAlike(s.faults, RecentAt(now), NotOlder(now), Filter(s.faults, RecentAt(now)));
  }

  /** A report is ignored during a cooldown; otherwise it is appended under the current generation, and the third fault
      left opens a cooldown of 900 seconds. */
  ghost predicate FaultRecorded(s: State, fault: Fault, now: u64, decision: Decision, t: State) {
    if s.phase.Cooldown? && now < s.cooldownUntil then t == s && decision.CooldownRequired?
    else exists p: State :: Aged(s, now, p) && Appended(p, fault, now, decision, t)
  }

  predicate Appended(p: State, fault: Fault, now: u64, decision: Decision, t: State) {
    var faults := p.faults + [FaultRecord(fault, now, p.generationId)];
    if |faults| >= 3 then
      && decision.CooldownRequired?
      && t == State(Cooldown, faults, if now + 900 <= U64_MAX then now + 900 else U64_MAX, Some(fault), p.generationId)
    else
      decision.RestartAllowed? && t == State(Recovering, faults, p.cooldownUntil, Some(fault), p.generationId)
  }

  lemma FaultIsRecorded(s: State, fault: Fault, now: u64)
    ensures FaultRecorded(s, fault, now, FaultDecision(s, fault, now), AfterFault(s, fault, now))
  {
    PruneAges(s, now);
    if !(s.phase.Cooldown? && now < s.cooldownUntil) {
      assert Aged(s, now, Prune(s, now));
    }
  }

  /** A start is refused exactly during a cooldown; otherwise it opens the next generation and keeps the faults. */
  ghost predicate StartAdmitted(s: State, now: u64, decision: Decision, t: State) {
    if s.phase.Cooldown? && now < s.cooldownUntil then t == s && decision.CooldownRequired?
    else && decision.RestartAllowed?
         && exists p: State :: Aged(s, now, p) &&
              t == State(Recovering, p.faults, if now >= p.cooldownUntil then 0 else p.cooldownUntil, p.lastFault,
                         if p.generationId < U64_MAX then p.generationId + 1 else U64_MAX)
  }

  lemma StartIsAdmitted(s: State, now: u64)
    ensures StartAdmitted(s, now, AdmitDecision(s, now), AfterAdmit(s, now))
  {
    PruneAges(s, now);
    if !(s.phase.Cooldown? && now < s.cooldownUntil) {
      assert Aged(s, now, Prune(s, now));
    }
  }

  /** What a recovery leaves of the faults: nothing before the first admission or after an expired cooldown, otherwise
      exactly those within the window that the current generation was charged, in order. */
  ghost predicate FaultsLeft(s: State, now: u64, faults: seq<FaultRecord>) {
    if s.phase.Cooldown? || s.generationId == 0 then |faults| == 0
    else Sifts(s.faults, NotOlderIn(now, s.generationId), faults)
  }

  /** A recovery changes nothing during a cooldown. Otherwise the daemon is healthy with no last fault exactly when no
      fault is left, and else is still recovering from the last one left. */
  ghost predicate Recovered(s: State, now: u64, t: State) {
    if s.phase.Cooldown? && now < s.cooldownUntil then t == s
    else
      && FaultsLeft(s, now, t.faults) && t.generationId == s.generationId
      && (if |t.faults| == 0 then t.phase.Healthy? && t.lastFault == None && t.cooldownUntil == 0
          else && t.phase.Recovering? && t.lastFault == Some(t.faults[|t.faults| - 1].fault)
               && t.cooldownUntil == s.cooldownUntil)
  }

  lemma RecoveredFaults(faults: seq<FaultRecord>, now: u64, g: u64)
    ensures Sifts(faults, NotOlderIn(now, g), Filter(Filter(faults, RecentAt(now)), OfGeneration(g)))
  {
    FilterTwice(faults, RecentAt(now), OfGeneration(g), NotOlderIn(now, g));
    FilterSifts(faults, NotOlderIn(now, g));
  }

  lemma RecoveryHappens(s: State, now: u64)
    ensures Recovered(s, now, AfterRecovered(s, now))
  {
    RecoveredFaults(s.faults, now, s.generationId);
  }

  class DaemonRecoveryState {
    var phase: Phase
    var faults: seq<FaultRecord>
    var cooldownUntil: u64
    var lastFault: Option<Fault>
    var generationId: u64

    function Value(): State
      reads this
    {
      State(phase, faults, cooldownUntil, lastFault, generationId)
    }

    constructor Load(saved: State)
      ensures Value() == saved
    {
      phase, faults, cooldownUntil := saved.phase, saved.faults, saved.cooldownUntil;
      lastFault, generationId := saved.lastFault, saved.generationId;
    }

    method PruneInPlace(now: u64)
      modifies this
      ensures Value() == Prune(old(Value()), now)
      ensures Aged(old(Value()), now, Value())
    {
      PruneAges(Value(), now);
      if phase.Cooldown? {
        if now >= cooldownUntil {
          phase := Healthy;
          cooldownUntil := 0;
          faults := Clear(faults);
        }
        return;
      }
      faults := Filter(faults, RecentAt(now));
    }

    method RecordFault(fault: Fault, now: u64) returns (decision: Decision)
      modifies this
      ensures Value() == AfterFault(old(Value()), fault, now)
      ensures FaultRecorded(old(Value()), fault, now, decision, Value())
      ensures decision == FaultDecision(old(Value()), fault, now) && (Shape(old(Value())) ==> Shape(Value()))
      ensures old(Frozen(Value(), now)) ==> decision.CooldownRequired? && Value() == old(Value())
    {
      FaultIsRecorded(Value(), fault, now);
      if phase.Cooldown? && now < cooldownUntil {
        return CooldownRequired;
      }
      PruneInPlace(now);
      lastFault := Some(fault);
      faults := faults + [FaultRecord(fault, now, generationId)];
      if |faults| >= MAX_RESTARTS_PER_WINDOW {
        phase := Cooldown;
        cooldownUntil := SatAdd(now, RESTART_COOLDOWN_SECS);
        decision := CooldownRequired;
      } else {
        phase := Recovering;
        decision := RestartAllowed;
      }
    }

    method AdmitStart(now: u64) returns (decision: Decision)
      modifies this
      ensures Value() == AfterAdmit(old(Value()), now)
      ensures decision == AdmitDecision(old(Value()), now)
      ensures StartAdmitted(old(Value()), now, decision, Value())
      ensures Shape(old(Value())) ==> Shape(Value())
      ensures decision.RestartAllowed? ==> !phase.Cooldown? && generationId >= 1
    {
      StartIsAdmitted(Value(), now);
      PruneInPlace(now);
      if phase.Cooldown? && now < cooldownUntil {
        return CooldownRequired;
      }
      if now >= cooldownUntil {
        cooldownUntil := 0;
      }
      phase := Recovering;
      var next := SatAdd(generationId, 1);
      generationId := if next < 1 then 1 else next;
      decision := RestartAllowed;
    }

    method RecordRecovered(now: u64)
      modifies this
      ensures Value() == AfterRecovered(old(Value()), now)
      ensures Recovered(old(Value()), now, Value())
      ensures Shape(old(Value())) ==> Shape(Value())
    {
      RecoveryHappens(Value(), now);
      PruneInPlace(now);
      if phase.Cooldown? {
        return;
      }
      if generationId > 0 {
        faults := Filter(faults, OfGeneration(generationId));
      } else {
        faults := Clear(faults);
      }
      if |faults| == 0 {
        phase := Healthy;
        cooldownUntil := 0;
        lastFault := None;
      } else {
        phase := Recovering;
        lastFault := Some(faults[|faults| - 1].fault);
      }
    }

    method TakeSnapshot(now: u64) returns (snapshot: Snapshot)
      modifies this
      ensures Value() == Prune(old(Value()), now)
      ensures snapshot == Observe(old(Value()), now)
      ensures snapshot.phase == phase && snapshot.recentFaultCount == |faults| && snapshot.lastFault == lastFault
      ensures snapshot.restartBudgetRemaining == if phase.Cooldown? || |faults| >= 3 then 0 else 3 - |faults|
      ensures snapshot.cooldownRemaining == if cooldownUntil > now then cooldownUntil - now else 0
      ensures Shape(old(Value())) ==>
                (snapshot.phase.Cooldown? <==> snapshot.restartBudgetRemaining == 0)
                && (snapshot.phase.Cooldown? <==> snapshot.cooldownRemaining > 0)
    {
      PruneInPlace(now);
      var budget := if phase.Cooldown? then 0 else SatSub(MAX_RESTARTS_PER_WINDOW, |faults|);
      snapshot := Snapshot(phase, |faults|, budget, SatSub(cooldownUntil, now), lastFault);
    }
  }
}
