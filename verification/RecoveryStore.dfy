/** The file-backed controller of `src/daemon_recovery.rs` and the bounded cooldown wait of
    `src/daemon_bootstrap.rs` on top of it. */
module RecoveryStore {
  import opened Prelude
  import opened RecoveryState
  import Runs = RecoveryRuns

  /** How one locked load-operate-save of the state file ends. A save can fail after the rename
      (the directory sync), so the new state may be on disk although the caller sees an error. */
  datatype Io = Saved | NotStarted | SaveFailed(renamed: bool)

  datatype Admission = Admitted | StillCoolingDown(remaining: nat) | StoreError

  /** Some clock-monotone history of operations, none later than `now`, left this state behind. */
  ghost predicate ReachableBy(s: State, now: u64) {
    exists run: Runs.Run :: Runs.Monotone(run) && Runs.Until(run, now) && s == Runs.Exec(DEFAULT, run)
  }

  /** A cooldown read no earlier than its third fault never has more than 900 seconds left. */
  lemma {:induction false} DeadlineIsNear(run: Runs.Run, now: u64)
    requires Runs.Monotone(run) && Runs.Until(run, now)
    ensures var s := Runs.Exec(DEFAULT, run);
            s.phase.Cooldown? ==> s.cooldownUntil <= now + RESTART_COOLDOWN_SECS
  {
    if run == [] {
    } else {
      var front, e := run[..|run| - 1], run[|run| - 1];
      DeadlineIsNear(front, e.at);
    }
  }

  function WaitSecs(remaining: nat): nat {
    var capped := if remaining < RESTART_COOLDOWN_SECS - 1 then remaining else RESTART_COOLDOWN_SECS - 1;
    var wait := capped + 1;
    if wait < RESTART_COOLDOWN_SECS then wait else RESTART_COOLDOWN_SECS
  }

  class DaemonRecovery {
    var disk: State

    constructor Open(saved: State)
      ensures disk == saved
    {
      disk := saved;
    }

    /** `update`: the operation's result reaches the caller only when the save was acknowledged. */
    method AdmitStart(now: u64, io: Io) returns (r: Option<Decision>)
      modifies this
      ensures r == if io.Saved? then Some(AdmitDecision(old(disk), now)) else None
      ensures disk == if io.Saved? || io == SaveFailed(true) then AfterAdmit(old(disk), now) else old(disk)
    {
      if io.NotStarted? {
        return None;
      }
      var state := new DaemonRecoveryState.Load(disk);
      var decision := state.AdmitStart(now);
      if io.SaveFailed? && !io.renamed {
        return None;
      }
      disk := state.Value();
      return if io.Saved? then Some(decision) else None;
    }

    /** `snapshot` prunes a loaded copy and writes nothing back. */
    method TakeSnapshot(now: u64, io: Io) returns (r: Option<Snapshot>)
      ensures r == if io.Saved? then Some(Observe(disk, now)) else None
    {
      if !io.Saved? {
        return None;
      }
      var state := new DaemonRecoveryState.Load(disk);
      var snapshot := state.TakeSnapshot(now);
      return Some(snapshot);
    }

    /** One bounded wait always suffices: on a reachable state, with a clock that does not go back,
        a sleep that lasts at least as long as asked and no failing store access, admission succeeds,
        whether it was allowed at once, the snapshot reads the full 900 seconds or the cooldown ran
        out in between. In general the outcome is decided by the deadline the first attempt left. */
    method AdmitStartWithCooldownWait(t1: u64, t2: u64, t3: u64, t4: u64, ios: seq<Io>)
      returns (r: Admission, waited: nat)
      requires |ios| == 4
      modifies this
      ensures waited <= 900
      ensures waited > 0 <==> Frozen(old(disk), t1) && ios[0].Saved? && ios[1].Saved?
      ensures waited > 0 ==>
                var left := if old(disk).cooldownUntil > t2 then old(disk).cooldownUntil - t2 else 0;
                waited == if left < 900 then left + 1 else 900
      ensures r.Admitted? ==> !disk.phase.Cooldown? && disk.generationId >= 1
      ensures (forall i :: 0 <= i < 4 ==> ios[i].Saved?) ==>
                (r.Admitted? <==> !Frozen(old(disk), t1) || t3 >= old(disk).cooldownUntil)
      ensures ((forall i :: 0 <= i < 4 ==> ios[i].Saved?) && ReachableBy(old(disk), t1)
               && t1 <= t2 && t2 + waited <= t3) ==> r.Admitted?
      ensures r.StillCoolingDown? ==> r.remaining == SatSub(disk.cooldownUntil, t4)
    {
      ghost var start := disk;
      var first := AdmitStart(t1, ios[0]);
      if first.None? {
        return StoreError, 0;
      }
      if first.value.RestartAllowed? {
        return Admitted, 0;
      }
      assert disk == start && Frozen(start, t1);
      var seen := TakeSnapshot(t2, ios[1]);
      if seen.None? {
        return StoreError, 0;
      }
      waited := WaitSecs(seen.value.cooldownRemaining);
      if ReachableBy(start, t1) {
        ghost var run: Runs.Run :| Runs.Monotone(run) && Runs.Until(run, t1) && start == Runs.Exec(DEFAULT, run);
        DeadlineIsNear(run, t1);
      }
      var second := AdmitStart(t3, ios[2]);
      if second.None? {
        return StoreError, waited;
      }
      if second.value.CooldownRequired? {
        var left := TakeSnapshot(t4, ios[3]);
        if left.None? {
          return StoreError, waited;
        }
        return StillCoolingDown(left.value.cooldownRemaining), waited;
      }
      return Admitted, waited;
    }
  }
}
