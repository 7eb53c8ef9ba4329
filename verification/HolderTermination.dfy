/** Terminating stale database holders (`src/daemon_bootstrap.rs`, `src/process_diagnostics.rs`): SIGTERM, a
    grace period of polling, then SIGKILL, with the holder's identity inspected before every signal. */
module HolderTermination {
  import opened Prelude

  datatype Holder = Holder(
    pid: int, role: string, classification: string, openedFiles: seq<string>, startedAt: Option<nat>,
    currentProcess: bool, currentDaemon: bool, currentMcpServer: bool)

  datatype Target = Target(
    pid: int, role: string, classification: string, openedFiles: seq<string>, startedAt: Option<nat>)

  /** `DbHolderRemediationTarget::matches_holder`. */
  predicate Matches(t: Target, h: Holder) {
    && t.pid == h.pid && t.role == h.role && t.classification == h.classification
    && t.classification in ["stale_mcp_server", "orphan_daemon"]
    && !h.currentProcess && !h.currentDaemon && !h.currentMcpServer
    && t.startedAt == h.startedAt
    && (forall f :: f in t.openedFiles ==> f in h.openedFiles)
  }

  predicate AnyMatches(t: Target, report: seq<Holder>) {
    exists k :: 0 <= k < |report| && Matches(t, report[k])
  }

  datatype Signal = SIGTERM | SIGKILL
  datatype Status = Running | Stopped | Unreadable
  datatype Attempt = Signaled | IdentityMismatch | SignalFailed

  /** What the procedure does to the outside world, in order. An inspection is made for one target and signal. */
  datatype Event =
    | Inspected(target: Target, stage: Signal, report: seq<Holder>)
    | Sent(pid: int, signal: Signal, ok: bool)
    | Checked(pid: int, status: Status)
    | Slept

  datatype Failure = Mismatch(pid: int, stage: Signal) | NotDelivered(pid: int, stage: Signal) | StatusFailed(pid: int)
  datatype Outcome = Outcome(signaled: seq<int>, killed: seq<int>, errors: seq<Failure>)

  // --- What a trace must satisfy ---

  /** The outcome is an exact account of the trace: delivered signals and failures, in order. */
  function Summary(trace: seq<Event>): Outcome {
    if trace == [] then Outcome([], [], []) else Account(Summary(trace[..|trace| - 1]), trace[|trace| - 1])
  }

  function Account(o: Outcome, e: Event): Outcome {
    match e
    case Inspected(t, stage, report) =>
      if AnyMatches(t, report) then o else o.(errors := o.errors + [Mismatch(t.pid, stage)])
    case Sent(pid, SIGTERM, true) => o.(signaled := o.signaled + [pid])
    case Sent(pid, SIGKILL, true) => o.(killed := o.killed + [pid])
    case Sent(pid, signal, false) => o.(errors := o.errors + [NotDelivered(pid, signal)])
    case Checked(pid, Unreadable) => o.(errors := o.errors + [StatusFailed(pid)])
    case _ => o
  }

  lemma SleepsAppend(trace: seq<Event>, more: seq<Event>)
    requires |more| <= 2
    ensures Sleeps(trace + more) ==
            Sleeps(trace) + (if |more| > 0 && more[0].Slept? then 1 else 0) + (if |more| > 1
              && more[1].Slept? then 1 else 0)
  {
    var all := trace + more;
    if |more| == 0 {
      assert all == trace;
    } else if |more| == 1 {
      assert all[..|trace|] == trace;
    } else {
      assert all[..|trace| + 1][..|trace|] == trace;
    }
  }

  lemma SummaryAppend(trace: seq<Event>, e: Event)
    ensures Summary(trace + [e]) == Account(Summary(trace), e)
  {
    assert (trace + [e])[..|trace|] == trace;
  }

  predicate IsTerm(e: Event, pid: int) {
    e.Sent? && e.signal.SIGTERM? && e.pid == pid
  }

  ghost predicate TermSent(trace: seq<Event>, i: nat, pid: int) {
    exists j :: 0 <= j < i && j < |trace| && IsTerm(trace[j], pid)
  }

  /** Every look at `pid` among the first `i` events found it running. */
  predicate OnlySeenRunning(trace: seq<Event>, i: nat, pid: int) {
    forall j :: 0 <= j < i && j < |trace| && trace[j].Checked? && trace[j].pid == pid ==> trace[j].status.Running?
  }

  /** The signal at `i` follows at once on an inspection that shows the very target it is meant for. */
  predicate Identified(trace: seq<Event>, i: nat)
    requires i < |trace| && trace[i].Sent?
  {
    && i >= 1 && trace[i - 1].Inspected?
    && trace[i - 1].target.pid == trace[i].pid && trace[i - 1].stage == trace[i].signal
    && AnyMatches(trace[i - 1].target, trace[i - 1].report)
  }

  function Sleeps(trace: seq<Event>): nat {
    if trace == [] then 0 else Sleeps(trace[..|trace| - 1]) + (if trace[|trace| - 1].Slept? then 1 else 0)
  }

  /** A kill comes straight after a look that found the process running and the inspection, only for a process
      that was sent SIGTERM, only after a grace period of `n` sleeps, and, where `d` says that pids are distinct, never
      once it was seen stopped or unreadable. */
  ghost predicate Earned(d: bool, n: nat, trace: seq<Event>, i: nat)
    requires i < |trace| && trace[i].Sent?
  {
    trace[i].signal.SIGKILL? ==>
      && i >= 2 && trace[i - 2] == Checked(trace[i].pid, Running)
      && TermSent(trace, i, trace[i].pid) && (d ==> OnlySeenRunning(trace, i, trace[i].pid))
      && Sleeps(trace[..i]) == n
  }

  ghost predicate Safe(d: bool, n: nat, trace: seq<Event>) {
    forall i :: 0 <= i < |trace| && trace[i].Sent? ==> Identified(trace, i) && Earned(d, n, trace, i)
  }

  /** An inspection made for `t` before `stage` did not show it. */
  ghost predicate Mismatched(trace: seq<Event>, t: Target, stage: Signal) {
    exists j :: 0 <= j < |trace| && trace[j].Inspected? && trace[j].target == t && trace[j].stage == stage
                && !AnyMatches(t, trace[j].report)
  }

  ghost predicate SeenGone(trace: seq<Event>, pid: int) {
    !OnlySeenRunning(trace, |trace|, pid)
  }

  ghost predicate KillSent(trace: seq<Event>, pid: int) {
    exists j :: 0 <= j < |trace| && trace[j].Sent? && trace[j].signal.SIGKILL? && trace[j].pid == pid
  }

  /** After its SIGTERM a target is not forgotten: it was seen gone, sent SIGKILL, or no longer itself. */
  ghost predicate Finished(trace: seq<Event>, t: Target) {
    SeenGone(trace, t.pid) || KillSent(trace, t.pid) || Mismatched(trace, t, SIGKILL)
  }

  ghost predicate Handled(trace: seq<Event>, t: Target) {
    Mismatched(trace, t, SIGTERM) || (TermSent(trace, |trace|, t.pid) && Finished(trace, t))
  }

  /** `later` holds no new SIGTERM and no new inspection made for one. */
  predicate NoNewTerm(trace: seq<Event>, later: seq<Event>) {
    && trace <= later
    && forall j :: |trace| <= j < |later| ==>
         !(later[j].Sent? && later[j].signal.SIGTERM?) && !(later[j].Inspected? && later[j].stage.SIGTERM?)
  }

  /** A target that did not match before its SIGTERM was not sent one, and so is never sent SIGKILL. */
  ghost predicate Spared(trace: seq<Event>, t: Target) {
    Mismatched(trace, t, SIGTERM) ==> !TermSent(trace, |trace|, t.pid)
  }

  ghost predicate AllSpared(d: bool, trace: seq<Event>, targets: seq<Target>) {
    d ==> forall k :: 0 <= k < |targets| ==> Spared(trace, targets[k])
  }

  ghost predicate Untried(trace: seq<Event>, t: Target) {
    !Mismatched(trace, t, SIGTERM) && !TermSent(trace, |trace|, t.pid)
  }

  predicate DistinctPids(targets: seq<Target>) {
    forall i, j :: 0 <= i < j < |targets| ==> targets[i].pid != targets[j].pid
  }

  // --- Growing traces ---

  lemma SafeAppend(d: bool, n: nat, trace: seq<Event>, e: Event)
    requires Safe(d, n, trace)
    requires e.Sent? ==> Identified(trace + [e], |trace|) && Earned(d, n, trace + [e], |trace|)
    ensures Safe(d, n, trace + [e])
  {
    var t := trace + [e];
    forall i | 0 <= i < |t| && t[i].Sent? ensures Identified(t, i) && Earned(d, n, t, i) {
      if i < |trace| {
        assert Identified(trace, i) && Earned(d, n, trace, i) && t[..i] == trace[..i];
        assert forall j :: 0 <= j < |trace| ==> t[j] == trace[j];
      }
    }
  }

  /** What has happened stays happened. */
  lemma FactsPersist(trace: seq<Event>, later: seq<Event>, t: Target)
    requires trace <= later
    ensures TermSent(trace, |trace|, t.pid) ==> TermSent(later, |later|, t.pid)
    ensures forall stage :: Mismatched(trace, t, stage) ==> Mismatched(later, t, stage)
    ensures SeenGone(trace, t.pid) ==> SeenGone(later, t.pid)
    ensures Finished(trace, t) ==> Finished(later, t)
  {
    assert forall j :: 0 <= j < |trace| ==> later[j] == trace[j];
  }

  /** The target was sent SIGTERM and, if pids are distinct, never seen otherwise than running. */
  ghost predicate Waiting(d: bool, trace: seq<Event>, t: Target) {
    TermSent(trace, |trace|, t.pid) && (d ==> OnlySeenRunning(trace, |trace|, t.pid))
  }

  ghost predicate AllWaiting(d: bool, trace: seq<Event>, remaining: seq<Target>) {
    (d ==> DistinctPids(remaining)) && forall k :: 0 <= k < |remaining| ==> Waiting(d, trace, remaining[k])
  }

  /** `later` adds nothing about `pid` except, at most, looks that found it running. */
  predicate Quiet(trace: seq<Event>, later: seq<Event>, pid: int) {
    && trace <= later
    && forall j :: |trace| <= j < |later| && later[j].Checked? && later[j].pid == pid ==> later[j].status.Running?
  }

  lemma WaitingPersists(d: bool, trace: seq<Event>, later: seq<Event>, t: Target)
    requires Waiting(d, trace, t) && trace <= later && (d ==> Quiet(trace, later, t.pid))
    ensures Waiting(d, later, t)
  {
    FactsPersist(trace, later, t);
    assert forall j :: 0 <= j < |trace| ==> later[j] == trace[j];
  }

  lemma AllWaitingPersists(d: bool, trace: seq<Event>, later: seq<Event>, remaining: seq<Target>)
    requires AllWaiting(d, trace, remaining)
    requires trace <= later && (d ==> forall k :: 0 <= k < |remaining| ==> Quiet(trace, later, remaining[k].pid))
    ensures AllWaiting(d, later, remaining)
  {
    forall k | 0 <= k < |remaining| ensures Waiting(d, later, remaining[k]) {
      WaitingPersists(d, trace, later, remaining[k]);
    }
  }

  lemma SendIsSafe(d: bool, n: nat, before: seq<Event>, t: Target, report: seq<Holder>, sent: Event)
    requires sent.Sent? && sent.pid == t.pid && AnyMatches(t, report)
    requires Safe(d, n, before + [Inspected(t, sent.signal, report)])
    requires sent.signal.SIGKILL? ==>
               && |before| >= 1 && before[|before| - 1] == Checked(t.pid, Running)
               && Waiting(d, before, t) && Sleeps(before) == n
    ensures Safe(d, n, before + [Inspected(t, sent.signal, report)] + [sent])
  {
    var middle := before + [Inspected(t, sent.signal, report)];
    var trace := middle + [sent];
    assert trace[|middle| - 1] == Inspected(t, sent.signal, report) && trace[|middle|] == sent;
    if sent.signal.SIGKILL? {
      KillIsEarned(d, n, before, Inspected(t, sent.signal, report), sent);
    }
    SafeAppend(d, n, middle, sent);
  }

  lemma KillIsEarned(d: bool, n: nat, before: seq<Event>, inspected: Event, sent: Event)
    requires sent.Sent? && sent.signal.SIGKILL? && inspected.Inspected?
    requires |before| >= 1 && before[|before| - 1] == Checked(sent.pid, Running)
    requires TermSent(before, |before|, sent.pid) && (d ==> OnlySeenRunning(before, |before|, sent.pid))
    requires Sleeps(before) == n
    ensures Earned(d, n, before + [inspected] + [sent], |before| + 1)
  {
    var trace := before + [inspected] + [sent];
    var j :| 0 <= j < |before| && IsTerm(before[j], sent.pid);
    assert IsTerm(trace[j], sent.pid) && trace[|before| - 1] == before[|before| - 1] && trace[|before|] == inspected;
    assert trace[..|before| + 1] == before + [inspected];
    SleepsAppend(before, [inspected]);
  }

  /** What one attempt to signal a target adds to the trace. */
  function Tried(t: Target, signal: Signal, report: seq<Holder>, attempt: Attempt): seq<Event> {
    if attempt.IdentityMismatch? then [Inspected(t, signal, report)]
    else [Inspected(t, signal, report), Sent(t.pid, signal, attempt.Signaled?)]
  }

  /** What an attempt adds to the outcome. */
  function AfterTry(o: Outcome, t: Target, signal: Signal, attempt: Attempt): Outcome {
    match attempt
    case IdentityMismatch => o.(errors := o.errors + [Mismatch(t.pid, signal)])
    case SignalFailed => o.(errors := o.errors + [NotDelivered(t.pid, signal)])
    case Signaled =>
      if signal.SIGTERM? then o.(signaled := o.signaled + [t.pid]) else o.(killed := o.killed + [t.pid])
  }

  lemma TriedSummary(trace: seq<Event>, t: Target, signal: Signal, report: seq<Holder>, attempt: Attempt)
    requires attempt.IdentityMismatch? <==> !AnyMatches(t, report)
    ensures Summary(trace + Tried(t, signal, report, attempt)) == AfterTry(Summary(trace), t, signal, attempt)
  {
    var inspected, sent := Inspected(t, signal, report), Sent(t.pid, signal, attempt.Signaled?);
    SummaryAppend(trace, inspected);
    if !attempt.IdentityMismatch? {
      SummaryAppend(trace + [inspected], sent);
      assert trace + Tried(t, signal, report, attempt) == trace + [inspected] + [sent];
    }
  }

  // --- The procedure ---

  /** The process table as the daemon sees it: answers depend on how many events went before. */
  class ProcessOps {
    const reports: nat -> seq<Holder>
    const delivered: nat -> bool
    const statuses: nat -> Status
    var trace: seq<Event>
    /** Whether the targets at hand have distinct pids, and how long the grace period is. */
    ghost var distinct: bool
    ghost var polls: nat

    constructor (reports: nat -> seq<Holder>, delivered: nat -> bool, statuses: nat -> Status)
      ensures trace == []
    {
      this.reports, this.delivered, this.statuses := reports, delivered, statuses;
      trace, distinct, polls := [], true, 0;
    }

    method InspectHolders(t: Target, stage: Signal) returns (report: seq<Holder>)
      requires Safe(distinct, polls, trace)
      modifies this`trace
      ensures trace == old(trace) + [Inspected(t, stage, report)] && Safe(distinct, polls, trace)
    {
      report := reports(|trace|);
      SafeAppend(distinct, polls, trace, Inspected(t, stage, report));
      trace := trace + [Inspected(t, stage, report)];
    }

    method Send(pid: int, signal: Signal) returns (ok: bool)
      modifies this`trace
      ensures trace == old(trace) + [Sent(pid, signal, ok)]
    {
      ok := delivered(|trace|);
      trace := trace + [Sent(pid, signal, ok)];
    }

    method IsRunning(pid: int) returns (status: Status)
      requires Safe(distinct, polls, trace)
      modifies this`trace
      ensures trace == old(trace) + [Checked(pid, status)] && Safe(distinct, polls, trace)
    {
      status := statuses(|trace|);
      SafeAppend(distinct, polls, trace, Checked(pid, status));
      trace := trace + [Checked(pid, status)];
    }

    method Sleep()
      requires Safe(distinct, polls, trace)
      modifies this`trace
      ensures trace == old(trace) + [Slept] && Safe(distinct, polls, trace)
    {
      SafeAppend(distinct, polls, trace, Slept);
      trace := trace + [Slept];
    }

    /** `signal_matching_db_holder`: nothing is sent unless a fresh inspection shows this very target. */
    method SignalMatchingHolder(t: Target, signal: Signal) returns (attempt: Attempt, ghost report: seq<Holder>)
      requires Safe(distinct, polls, trace)
      requires signal.SIGKILL? ==>
                 && |trace| >= 1 && trace[|trace| - 1] == Checked(t.pid, Running)
                 && Waiting(distinct, trace, t) && Sleeps(trace) == polls
      modifies this`trace
      ensures Safe(distinct, polls, trace) && trace == old(trace) + Tried(t, signal, report, attempt)
      ensures Sleeps(trace) == old(Sleeps(trace))
      ensures attempt.IdentityMismatch? <==> !AnyMatches(t, report)
      ensures Summary(trace) == AfterTry(old(Summary(trace)), t, signal, attempt)
    {
      ghost var before := trace;
      var seen := InspectHolders(t, signal);
      report := seen;
      if !AnyMatches(t, seen) {
        attempt := IdentityMismatch;
      } else {
        var ok := Send(t.pid, signal);
        SendIsSafe(distinct, polls, before, t, seen, Sent(t.pid, signal, ok));
        attempt := if ok then Signaled else SignalFailed;
        assert trace == before + [Inspected(t, signal, seen), Sent(t.pid, signal, ok)];
      }
      TriedSummary(before, t, signal, report, attempt);
      SleepsAppend(before, Tried(t, signal, report, attempt));
    }

    /** One target of the first loop. */
    method TermOne(targets: seq<Target>, i: nat, waiting: seq<Target>, start: Outcome)
      returns (remaining: seq<Target>, outcome: Outcome)
      requires i < |targets| && distinct == DistinctPids(targets) && Safe(distinct, polls, trace)
      requires Terming(distinct, trace, targets, waiting, i, start)
      modifies this`trace
      ensures Safe(distinct, polls, trace) && Terming(distinct, trace, targets, remaining, i + 1, outcome)
    {
      var t := targets[i];
      ghost var before := trace;
      var attempt, report := SignalMatchingHolder(t, SIGTERM);
      TermRound(distinct, before, targets, waiting, i, report, attempt);
      SparedRound(distinct, before, targets, i, report, attempt);
      remaining := waiting;
      match attempt
      case IdentityMismatch =>
        outcome := start.(errors := start.errors + [Mismatch(t.pid, SIGTERM)]);
      case Signaled =>
        outcome := start.(signaled := start.signaled + [t.pid]);
        remaining := remaining + [t];
      case SignalFailed =>
        outcome := start.(errors := start.errors + [NotDelivered(t.pid, SIGTERM)]);
        remaining := remaining + [t];
    }

    method TermAll(targets: seq<Target>) returns (outcome: Outcome, remaining: seq<Target>)
      requires distinct == DistinctPids(targets) && trace == []
      modifies this`trace
      ensures Safe(distinct, polls, trace) && outcome == Summary(trace) && AllWaiting(distinct, trace, remaining)
      ensures forall k :: 0 <= k < |targets| ==> Mismatched(trace, targets[k], SIGTERM) || targets[k] in remaining
      ensures AllSpared(distinct, trace, targets) && Sleeps(trace) == 0 && TermsAmong(trace, targets)
    {
      outcome, remaining := Outcome([], [], []), [];
      for i := 0 to |targets|
        invariant Safe(distinct, polls, trace) && Terming(distinct, trace, targets, remaining, i, outcome)
      {
        remaining, outcome := TermOne(targets, i, remaining, outcome);
      }
    }

    /** One target of the grace loop: `live` were found running before it, `back` are still to come. */
    method LookOne(t: Target, live: seq<Target>, ghost back: seq<Target>, start: Outcome)
      returns (kept: seq<Target>, outcome: Outcome)
      requires Safe(distinct, polls, trace) && start == Summary(trace) && AllWaiting(distinct, trace, live + [t] + back)
      modifies this`trace
      ensures Safe(distinct, polls, trace) && outcome == Summary(trace) && AllWaiting(distinct, trace, kept + back)
      ensures NoNewTerm(old(trace), trace) && Sleeps(trace) == old(Sleeps(trace))
      ensures kept == live + [t] || (kept == live && SeenGone(trace, t.pid))
    {
      ghost var before := trace;
      kept, outcome := live, start;
      var status := IsRunning(t.pid);
      SummaryAppend(before, Checked(t.pid, status));
      SleepsAppend(before, [Checked(t.pid, status)]);
      LookAt(distinct, before, live, t, back, status);
      match status
      case Running => kept := live + [t];
      case Stopped =>
      case Unreadable => outcome := outcome.(errors := outcome.errors + [StatusFailed(t.pid)]);
    }

    /** One pass of the grace loop: who is still running. */
    method KeepRunning(waiting: seq<Target>, start: Outcome) returns (live: seq<Target>, outcome: Outcome)
      requires Safe(distinct, polls, trace) && start == Summary(trace) && AllWaiting(distinct, trace, waiting)
      modifies this`trace
      ensures Safe(distinct, polls, trace) && outcome == Summary(trace) && AllWaiting(distinct, trace, live)
      ensures NoNewTerm(old(trace), trace) && Sleeps(trace) == old(Sleeps(trace))
      ensures KeptOrSeenGone(trace, waiting, live) && forall t :: t in live ==> t in waiting
    {
      live, outcome := [], start;
      for i := 0 to |waiting|
        invariant Safe(distinct, polls, trace) && outcome == Summary(trace)
        invariant AllWaiting(distinct, trace, live + waiting[i..]) && NoNewTerm(old(trace), trace)
        invariant forall t :: t in live ==> t in waiting
        invariant KeptOrSeenGone(trace, waiting[..i], live) && Sleeps(trace) == old(Sleeps(trace))
      {
        ghost var before := trace;
        assert live + waiting[i..] == live + [waiting[i]] + waiting[i + 1..];
        ghost var earlier := live;
        live, outcome := LookOne(waiting[i], live, waiting[i + 1..], outcome);
        StillGone(before, trace, waiting[..i], earlier, live);
        assert waiting[..i + 1] == waiting[..i] + [waiting[i]];
      }
      assert live + waiting[|waiting|..] == live && waiting[..|waiting|] == waiting;
    }

    /** One target of the last loop; `rest` are the targets still to come. */
    method KillOne(t: Target, ghost rest: seq<Target>, start: Outcome) returns (outcome: Outcome)
      requires Safe(distinct, polls, trace) && start == Summary(trace) && AllWaiting(distinct, trace, [t] + rest)
      requires Sleeps(trace) == polls
      modifies this`trace
      ensures Safe(distinct, polls, trace) && outcome == Summary(trace) && AllWaiting(distinct, trace, rest)
      ensures NoNewTerm(old(trace), trace) && Finished(trace, t) && Sleeps(trace) == polls
    {
      ghost var before := trace;
      outcome := start;
      var status := IsRunning(t.pid);
      SummaryAppend(before, Checked(t.pid, status));
      SleepsAppend(before, [Checked(t.pid, status)]);
      assert [] + [t] + rest == [t] + rest && [] + rest == rest && ([t] + rest)[0] == t;
      LookAt(distinct, before, [], t, rest, status);
      if status.Unreadable? {
        outcome := outcome.(errors := outcome.errors + [StatusFailed(t.pid)]);
      }
      if !status.Running? {
        return;
      }
      ghost var middle := trace;
      outcome := KillRunning(t, rest, outcome);
      assert NoNewTerm(before, middle);
    }

    /** A target just seen running after its grace period. */
    method KillRunning(t: Target, ghost rest: seq<Target>, start: Outcome) returns (outcome: Outcome)
      requires Safe(distinct, polls, trace) && start == Summary(trace) && AllWaiting(distinct, trace, rest)
      requires |trace| >= 1 && trace[|trace| - 1] == Checked(t.pid, Running) && Waiting(distinct, trace, t)
      requires Sleeps(trace) == polls
      modifies this`trace
      ensures Safe(distinct, polls, trace) && outcome == Summary(trace) && AllWaiting(distinct, trace, rest)
      ensures NoNewTerm(old(trace), trace) && Finished(trace, t) && Sleeps(trace) == polls
    {
      ghost var before := trace;
      var attempt, report := SignalMatchingHolder(t, SIGKILL);
      KillRound(distinct, before, t, rest, report, attempt);
      match attempt
      case IdentityMismatch => outcome := start.(errors := start.errors + [Mismatch(t.pid, SIGKILL)]);
      case SignalFailed => outcome := start.(errors := start.errors + [NotDelivered(t.pid, SIGKILL)]);
      case Signaled => outcome := start.(killed := start.killed + [t.pid]);
    }

    method KillAll(remaining: seq<Target>, start: Outcome) returns (outcome: Outcome)
      requires Safe(distinct, polls, trace) && start == Summary(trace) && AllWaiting(distinct, trace, remaining)
      requires remaining != [] ==> Sleeps(trace) == polls
      modifies this`trace
      ensures Safe(distinct, polls, trace) && outcome == Summary(trace) && NoNewTerm(old(trace), trace)
      ensures AllFinished(trace, remaining)
    {
      outcome := start;
      for i := 0 to |remaining|
        invariant Safe(distinct, polls, trace) && outcome == Summary(trace)
                  && AllWaiting(distinct, trace, remaining[i..])
        invariant NoNewTerm(old(trace), trace)
        invariant AllFinished(trace, remaining[..i]) && (remaining != [] ==> Sleeps(trace) == polls)
      {
        ghost var before := trace;
        assert remaining[i..] == [remaining[i]] + remaining[i + 1..];
        outcome := KillOne(remaining[i], remaining[i + 1..], outcome);
        StillFinished(before, trace, remaining[..i]);
        assert remaining[..i + 1] == remaining[..i] + [remaining[i]];
      }
      assert remaining[..|remaining|] == remaining;
    }

    /** One round of the grace period: look at everyone who waits, and sleep if somebody is left. */
    method PollOnce(waiting: seq<Target>, start: Outcome, ghost targets: seq<Target>)
      returns (remaining: seq<Target>, outcome: Outcome, more: bool)
      requires Grace(distinct, polls, trace, waiting, targets, start)
      modifies this`trace
      ensures Grace(distinct, polls, trace, remaining, targets, outcome) && (more <==> remaining != [])
      ensures (forall t :: t in remaining ==> t in waiting) && NoNewTerm(old(trace), trace)
      ensures Sleeps(trace) == old(Sleeps(trace)) + if more then 1 else 0
    {
      ghost var before := trace;
      remaining, outcome := KeepRunning(waiting, start);
      KeptOrGone(before, trace, waiting, remaining, targets);
      StillSpared(distinct, before, trace, targets);
      more := remaining != [];
      if more {
        ghost var middle := trace;
        Sleep();
        SummaryAppend(middle, Slept);
        SleepsAppend(middle, [Slept]);
        AllWaitingPersists(distinct, middle, trace, remaining);
        KeptOrGone(middle, trace, remaining, remaining, targets);
        StillSpared(distinct, middle, trace, targets);
      }
    }

    /** The whole procedure; `polls` is how often the clock still reads before the grace deadline. Whatever the process
        table answers: every signal is identified by the inspection right before it, every kill follows a SIGTERM, the
        whole grace period and a look that found the process running, the outcome is an exact account of what happened,
        and no target is forgotten. If the pids are distinct, a target once seen stopped or unreadable is not killed,
        and one that did not match before its SIGTERM is sent neither signal. */
    method TerminateTargets(targets: seq<Target>, polls: nat) returns (outcome: Outcome)
      requires trace == []
      modifies this
      ensures Safe(DistinctPids(targets), polls, trace)
      ensures outcome == Summary(trace)
      ensures AllHandled(trace, targets) && SignalsAmong(trace, targets)
      ensures DistinctPids(targets) ==> forall k :: 0 <= k < |targets| && Mismatched(trace, targets[k], SIGTERM) ==>
                !TermSent(trace, |trace|, targets[k].pid) && !KillSent(trace, targets[k].pid)
    {
      distinct, this.polls := DistinctPids(targets), polls;
      var remaining: seq<Target>;
      outcome, remaining := TermAll(targets);
      TermedOrMismatched(distinct, trace, targets, remaining);
      for n := 0 to polls
        invariant distinct == DistinctPids(targets) && this.polls == polls
        invariant remaining == [] || Sleeps(trace) == n
        invariant TermsAmong(trace, targets)
        invariant Grace(distinct, polls, trace, remaining, targets, outcome)
      {
        var more: bool;
        ghost var waiting := remaining;
        remaining, outcome, more := PollOnce(remaining, outcome, targets);
        assert more ==> remaining[0] in waiting;
        if !more {
          break;
        }
      }
      ghost var before := trace;
      outcome := KillAll(remaining, outcome);
      StillSpared(distinct, before, trace, targets);
      HandledAtTheEnd(before, trace, remaining, targets);
      SparedBothSignals(distinct, polls, trace, targets);
      OnlyTheTargets(distinct, polls, trace, targets);
    }
  }

  /** Where a target stands during the grace period. */
  ghost predicate Accounted(trace: seq<Event>, remaining: seq<Target>, t: Target) {
    Mismatched(trace, t, SIGTERM) || (TermSent(trace, |trace|, t.pid) && (t in remaining || SeenGone(trace, t.pid)))
  }

  ghost predicate AllAccounted(trace: seq<Event>, remaining: seq<Target>, targets: seq<Target>) {
    forall k :: 0 <= k < |targets| ==> Accounted(trace, remaining, targets[k])
  }

  /** The grace period between two polls. */
  ghost predicate Grace(
    d: bool, n: nat, trace: seq<Event>, remaining: seq<Target>, targets: seq<Target>, outcome: Outcome)
  {
    && Safe(d, n, trace) && outcome == Summary(trace) && AllWaiting(d, trace, remaining)
    && AllAccounted(trace, remaining, targets) && AllSpared(d, trace, targets)
  }

  ghost predicate AllHandled(trace: seq<Event>, targets: seq<Target>) {
    forall k :: 0 <= k < |targets| ==> Handled(trace, targets[k])
  }

  predicate NobodyChecked(trace: seq<Event>) {
    forall j :: 0 <= j < |trace| ==> !trace[j].Checked?
  }

  predicate AmongFirst(remaining: seq<Target>, targets: seq<Target>, i: nat)
    requires i <= |targets|
  {
    forall k :: 0 <= k < |remaining| ==> remaining[k] in targets[..i]
  }

  ghost predicate Covered(trace: seq<Event>, targets: seq<Target>, remaining: seq<Target>, i: nat)
    requires i <= |targets|
  {
    forall k :: 0 <= k < i ==> Mismatched(trace, targets[k], SIGTERM) || targets[k] in remaining
  }

  /** The SIGTERM loop before target `i`: nobody was looked at yet, and every target so far did not match or waits. */
  ghost predicate TermState(d: bool, trace: seq<Event>, targets: seq<Target>, remaining: seq<Target>, i: nat)
    requires i <= |targets|
  {
    && AllWaiting(d, trace, remaining) && NobodyChecked(trace)
    && AmongFirst(remaining, targets, i) && Covered(trace, targets, remaining, i)
  }

  ghost predicate SparedState(d: bool, trace: seq<Event>, targets: seq<Target>, i: nat) {
    d ==> AllSpared(d, trace, targets) && forall k :: i <= k < |targets| ==> Untried(trace, targets[k])
  }

  /** The first loop before target `i`. */
  ghost predicate Terming(
    d: bool, trace: seq<Event>, targets: seq<Target>, remaining: seq<Target>, i: nat, outcome: Outcome)
    requires i <= |targets|
  {
    && outcome == Summary(trace) && Sleeps(trace) == 0 && TermsAmong(trace, targets)
    && TermState(d, trace, targets, remaining, i) && SparedState(d, trace, targets, i)
  }

  /** The targets that wait after an attempt on `t`. */
  function KeptAfter(remaining: seq<Target>, t: Target, attempt: Attempt): seq<Target> {
    if attempt.IdentityMismatch? then remaining else remaining + [t]
  }

  lemma StillAmongFirst(remaining: seq<Target>, targets: seq<Target>, i: nat, attempt: Attempt)
    requires i < |targets| && AmongFirst(remaining, targets, i)
    ensures AmongFirst(KeptAfter(remaining, targets[i], attempt), targets, i + 1)
  {
    assert targets[..i + 1] == targets[..i] + [targets[i]];
  }

  lemma StillCovered(
    trace: seq<Event>, targets: seq<Target>, remaining: seq<Target>, i: nat, report: seq<Holder>, attempt: Attempt)
    requires i < |targets| && Covered(trace, targets, remaining, i)
    requires attempt.IdentityMismatch? <==> !AnyMatches(targets[i], report)
    ensures Covered(trace + Tried(targets[i], SIGTERM, report, attempt), targets,
                    KeptAfter(remaining, targets[i], attempt), i + 1)
  {
    var later := trace + Tried(targets[i], SIGTERM, report, attempt);
    var kept := KeptAfter(remaining, targets[i], attempt);
    assert later[|trace|] == Inspected(targets[i], SIGTERM, report);
    assert attempt.IdentityMismatch? ==> Mismatched(later, targets[i], SIGTERM);
    assert !attempt.IdentityMismatch? ==> kept[|remaining|] == targets[i];
    forall k | 0 <= k < i ensures Mismatched(later, targets[k], SIGTERM) || targets[k] in kept {
      FactsPersist(trace, later, targets[k]);
    }
  }

  lemma StillWaiting(
    d: bool, trace: seq<Event>, targets: seq<Target>, remaining: seq<Target>, i: nat, report: seq<Holder>,
    attempt: Attempt)
    requires (d ==> DistinctPids(targets)) && i < |targets| && AllWaiting(d, trace, remaining)
    requires NobodyChecked(trace) && AmongFirst(remaining, targets, i)
    ensures AllWaiting(d, trace + Tried(targets[i], SIGTERM, report, attempt),
                       KeptAfter(remaining, targets[i], attempt))
    ensures NobodyChecked(trace + Tried(targets[i], SIGTERM, report, attempt))
  {
    var later := trace + Tried(targets[i], SIGTERM, report, attempt);
    AllWaitingPersists(d, trace, later, remaining);
    if !attempt.IdentityMismatch? {
      assert IsTerm(later[|trace| + 1], targets[i].pid);
      OneMoreWaits(d, later, targets, remaining, i);
    }
  }

  lemma TermRound(
    d: bool, trace: seq<Event>, targets: seq<Target>, remaining: seq<Target>, i: nat, report: seq<Holder>,
    attempt: Attempt)
    requires (d ==> DistinctPids(targets)) && i < |targets| && TermState(d, trace, targets, remaining, i)
    requires attempt.IdentityMismatch? <==> !AnyMatches(targets[i], report)
    ensures TermState(d, trace + Tried(targets[i], SIGTERM, report, attempt), targets,
                      KeptAfter(remaining, targets[i], attempt), i + 1)
  {
    StillWaiting(d, trace, targets, remaining, i, report, attempt);
    StillAmongFirst(remaining, targets, i, attempt);
    StillCovered(trace, targets, remaining, i, report, attempt);
  }

  lemma OneMoreWaits(d: bool, trace: seq<Event>, targets: seq<Target>, remaining: seq<Target>, i: nat)
    requires (d ==> DistinctPids(targets)) && i < |targets| && AllWaiting(d, trace, remaining)
    requires Waiting(d, trace, targets[i])
    requires AmongFirst(remaining, targets, i)
    ensures AllWaiting(d, trace, remaining + [targets[i]])
  {
    if d {
      forall k | 0 <= k < |remaining| ensures remaining[k].pid != targets[i].pid {
        assert remaining[k] in targets[..i];
      }
    }
  }

  lemma SparedRound(d: bool, trace: seq<Event>, targets: seq<Target>, i: nat, report: seq<Holder>, attempt: Attempt)
    requires (d ==> DistinctPids(targets)) && i < |targets| && SparedState(d, trace, targets, i)
    requires attempt.IdentityMismatch? <==> !AnyMatches(targets[i], report)
    ensures SparedState(d, trace + Tried(targets[i], SIGTERM, report, attempt), targets, i + 1)
  {
    if d {
      var later := trace + Tried(targets[i], SIGTERM, report, attempt);
      assert later[|trace|] == Inspected(targets[i], SIGTERM, report);
      assert forall j :: 0 <= j < |trace| ==> later[j] == trace[j];
      forall k | 0 <= k < |targets| && k != i
        ensures Spared(later, targets[k]) && (Untried(trace, targets[k]) ==> Untried(later, targets[k]))
      {
        assert targets[k].pid != targets[i].pid;
        assert Mismatched(later, targets[k], SIGTERM) ==> Mismatched(trace, targets[k], SIGTERM);
        assert TermSent(later, |later|, targets[k].pid) ==> TermSent(trace, |trace|, targets[k].pid);
      }
    }
  }

  lemma KillMeansTerm(d: bool, n: nat, trace: seq<Event>, pid: int)
    requires Safe(d, n, trace)
    ensures KillSent(trace, pid) ==> TermSent(trace, |trace|, pid)
  {
    if KillSent(trace, pid) {
      var i :| 0 <= i < |trace| && trace[i].Sent? && trace[i].signal.SIGKILL? && trace[i].pid == pid;
      assert Earned(d, n, trace, i) && TermSent(trace, i, pid);
    }
  }

  /** A kill is preceded by a SIGTERM, so what was not sent the one is not sent the other. */
  lemma SparedBothSignals(d: bool, n: nat, trace: seq<Event>, targets: seq<Target>)
    requires Safe(d, n, trace) && AllSpared(d, trace, targets)
    ensures d ==> forall k :: 0 <= k < |targets| && Mismatched(trace, targets[k], SIGTERM) ==>
              !TermSent(trace, |trace|, targets[k].pid) && !KillSent(trace, targets[k].pid)
  {
    if d {
      forall k | 0 <= k < |targets| && Mismatched(trace, targets[k], SIGTERM)
        ensures !TermSent(trace, |trace|, targets[k].pid) && !KillSent(trace, targets[k].pid)
      {
        assert Spared(trace, targets[k]);
        KillMeansTerm(d, n, trace, targets[k].pid);
      }
    }
  }

  predicate HasTarget(targets: seq<Target>, pid: int) {
    exists k :: 0 <= k < |targets| && targets[k].pid == pid
  }

  predicate TermsAmong(trace: seq<Event>, targets: seq<Target>) {
    forall j :: 0 <= j < |trace| && trace[j].Sent? && trace[j].signal.SIGTERM? ==> HasTarget(targets, trace[j].pid)
  }

  /** No process but the targets is sent a signal. */
  predicate SignalsAmong(trace: seq<Event>, targets: seq<Target>) {
    forall j :: 0 <= j < |trace| && trace[j].Sent? ==> HasTarget(targets, trace[j].pid)
  }

  lemma OnlyTheTargets(d: bool, n: nat, trace: seq<Event>, targets: seq<Target>)
    requires Safe(d, n, trace) && TermsAmong(trace, targets)
    ensures SignalsAmong(trace, targets)
  {
    forall i | 0 <= i < |trace| && trace[i].Sent? ensures HasTarget(targets, trace[i].pid) {
      if trace[i].signal.SIGKILL? {
        assert Earned(d, n, trace, i);
        var j :| 0 <= j < i && IsTerm(trace[j], trace[i].pid);
      }
    }
  }

  lemma HandledAtTheEnd(before: seq<Event>, after: seq<Event>, remaining: seq<Target>, targets: seq<Target>)
    requires before <= after && AllAccounted(before, remaining, targets) && AllFinished(after, remaining)
    ensures AllHandled(after, targets)
  {
    forall k | 0 <= k < |targets| ensures Handled(after, targets[k]) {
      FactsPersist(before, after, targets[k]);
    }
  }

  lemma KillRound(d: bool, trace: seq<Event>, t: Target, rest: seq<Target>, report: seq<Holder>, attempt: Attempt)
    requires AllWaiting(d, trace, rest)
    requires attempt.IdentityMismatch? <==> !AnyMatches(t, report)
    ensures var later := trace + Tried(t, SIGKILL, report, attempt);
            AllWaiting(d, later, rest) && Finished(later, t) && NoNewTerm(trace, later)
  {
    var later := trace + Tried(t, SIGKILL, report, attempt);
    AllWaitingPersists(d, trace, later, rest);
    assert later[|trace|] == Inspected(t, SIGKILL, report);
    assert !attempt.IdentityMismatch? ==> later[|trace| + 1] == Sent(t.pid, SIGKILL, attempt.Signaled?);
  }

  lemma StillSpared(d: bool, before: seq<Event>, after: seq<Event>, targets: seq<Target>)
    requires NoNewTerm(before, after) && AllSpared(d, before, targets)
    ensures AllSpared(d, after, targets)
  {
    assert forall j :: 0 <= j < |before| ==> after[j] == before[j];
    forall k | d && 0 <= k < |targets| ensures Spared(after, targets[k]) {
      assert Spared(before, targets[k]);
      assert Mismatched(after, targets[k], SIGTERM) ==> Mismatched(before, targets[k], SIGTERM);
      assert TermSent(after, |after|, targets[k].pid) ==> TermSent(before, |before|, targets[k].pid);
    }
  }

  /** Looking at one waiting target keeps the others waiting, and it too if it is running. */
  lemma LookAt(d: bool, trace: seq<Event>, front: seq<Target>, t: Target, back: seq<Target>, status: Status)
    requires AllWaiting(d, trace, front + [t] + back)
    ensures var later := trace + [Checked(t.pid, status)];
            && AllWaiting(d, later, front + back)
            && (if status.Running? then AllWaiting(d, later, front + [t] + back) && Waiting(d, later, t)
                else SeenGone(later, t.pid))
  {
    var all, rest, later := front + [t] + back, front + back, trace + [Checked(t.pid, status)];
    assert all[|front|] == t && later[|trace|] == Checked(t.pid, status);
    forall i | 0 <= i < |rest| ensures (d ==> rest[i].pid != t.pid) && Waiting(d, trace, rest[i]) {
      assert rest[i] == all[if i < |front| then i else i + 1];
    }
    forall i, j | d && 0 <= i < j < |rest| ensures rest[i].pid != rest[j].pid {
      assert rest[i] == all[if i < |front| then i else i + 1] && rest[j] == all[if j < |front| then j else j + 1];
    }
    AllWaitingPersists(d, trace, later, rest);
    if status.Running? {
      AllWaitingPersists(d, trace, later, all);
    }
  }

  lemma TermedOrMismatched(d: bool, trace: seq<Event>, targets: seq<Target>, remaining: seq<Target>)
    requires AllWaiting(d, trace, remaining)
    requires forall k :: 0 <= k < |targets| ==> Mismatched(trace, targets[k], SIGTERM) || targets[k] in remaining
    ensures AllAccounted(trace, remaining, targets)
  {
  }

  ghost predicate AllFinished(trace: seq<Event>, targets: seq<Target>) {
    forall k :: 0 <= k < |targets| ==> Finished(trace, targets[k])
  }

  lemma StillFinished(before: seq<Event>, after: seq<Event>, targets: seq<Target>)
    requires before <= after && AllFinished(before, targets)
    ensures AllFinished(after, targets)
  {
    forall k | 0 <= k < |targets| ensures Finished(after, targets[k]) {
      FactsPersist(before, after, targets[k]);
    }
  }

  ghost predicate KeptOrSeenGone(trace: seq<Event>, waiting: seq<Target>, live: seq<Target>) {
    forall k :: 0 <= k < |waiting| ==> waiting[k] in live || SeenGone(trace, waiting[k].pid)
  }

  lemma StillGone(before: seq<Event>, after: seq<Event>, waiting: seq<Target>, live: seq<Target>, kept: seq<Target>)
    requires before <= after && KeptOrSeenGone(before, waiting, live) && live <= kept
    ensures KeptOrSeenGone(after, waiting, kept)
  {
    forall k | 0 <= k < |waiting| && SeenGone(before, waiting[k].pid) ensures SeenGone(after, waiting[k].pid) {
      FactsPersist(before, after, waiting[k]);
    }
  }

  lemma KeptOrGone(before: seq<Event>, after: seq<Event>, waiting: seq<Target>, live: seq<Target>, targets: seq<Target>)
    requires before <= after
    requires AllAccounted(before, waiting, targets) && KeptOrSeenGone(after, waiting, live)
    ensures AllAccounted(after, live, targets)
  {
    forall k | 0 <= k < |targets| ensures Accounted(after, live, targets[k]) {
      FactsPersist(before, after, targets[k]);
    }
  }
}
