/** Choosing which database holders may be terminated at daemon start (`src/process_diagnostics.rs`,
    `src/daemon_bootstrap.rs`), and terminating them. */
module HolderPlan {
  import opened Prelude
  import opened HolderTermination

  /** A left-over process of this program that is not in use now. */
  predicate Stale(h: Holder) {
    && (h.classification == "stale_mcp_server" || h.classification == "orphan_daemon")
    && !h.currentProcess && !h.currentDaemon && !h.currentMcpServer
  }

  /** `DbHolderRemediationTarget::from_holder`. */
  function TargetOf(h: Holder): Target {
    Target(h.pid, h.role, h.classification, h.openedFiles, h.startedAt)
  }

  /** A later sighting passes for a holder exactly if it is stale, has every file of it open, and apart from other files
      would make the same target. */
  lemma TargetKnowsItsHolder(h: Holder, later: Holder)
    ensures Matches(TargetOf(h), later) <==>
              && Stale(later) && (forall f :: f in h.openedFiles ==> f in later.openedFiles)
              && TargetOf(later.(openedFiles := h.openedFiles)) == TargetOf(h)
  {
  }

  // --- Stable sorting and `dedup_by_key` ---

  predicate Ascending<T(!new)>(s: seq<T>, key: T -> int) {
    forall i, j :: 0 <= i < j < |s| ==> key(s[i]) <= key(s[j])
  }

  predicate StrictlyAscending<T(!new)>(s: seq<T>, key: T -> int) {
    forall i, j :: 0 <= i < j < |s| ==> key(s[i]) < key(s[j])
  }

  function KeyIs<T>(key: T -> int, k: int): T -> bool {
    x => key(x) == k
  }

  /** The first element with key `k`. */
  function First<T>(s: seq<T>, key: T -> int, k: int): Option<T> {
    if s == [] then None else
      var front := First(s[..|s| - 1], key, k);
      if front.None? && key(s[|s| - 1]) == k then Some(s[|s| - 1]) else front
  }

  /** Behind everything that is not greater. */
  function Insert<T>(s: seq<T>, x: T, key: T -> int): seq<T> {
    if s == [] || key(s[|s| - 1]) <= key(x) then s + [x]
    else Insert(s[..|s| - 1], x, key) + [s[|s| - 1]]
  }

  function SortBy<T>(s: seq<T>, key: T -> int): seq<T> {
    if s == [] then [] else Insert(SortBy(s[..|s| - 1], key), s[|s| - 1], key)
  }

  function DedupBy<T>(s: seq<T>, key: T -> int): seq<T> {
    if |s| <= 1 then s
    else
      var front := DedupBy(s[..|s| - 1], key);
      if key(s[|s| - 2]) == key(s[|s| - 1]) then front else front + [s[|s| - 1]]
  }

  lemma {:induction false} InsertSorts<T(!new)>(s: seq<T>, x: T, key: T -> int)
    requires Ascending(s, key)
    ensures Ascending(Insert(s, x, key), key)
    ensures forall y :: y in Insert(s, x, key) <==> y in s || y == x
  {
    if |s| == 0 || key(s[|s| - 1]) <= key(x) {
    } else {
      var front, last := s[..|s| - 1], s[|s| - 1];
      InsertSorts(front, x, key);
      assert s == front + [last];
      forall i | 0 <= i < |Insert(front, x, key)| ensures key(Insert(front, x, key)[i]) <= key(last) {
        assert Insert(front, x, key)[i] in Insert(front, x, key);
      }
    }
  }

  lemma {:induction false} InsertKeepsOrder<T>(s: seq<T>, x: T, key: T -> int, k: int)
    ensures Filter(Insert(s, x, key), KeyIs(key, k)) ==
            Filter(s, KeyIs(key, k)) + (if key(x) == k then [x] else [])
  {
    if |s| == 0 || key(s[|s| - 1]) <= key(x) {
      FilterAppend(s, x, KeyIs(key, k));
    } else {
      var front, last := s[..|s| - 1], s[|s| - 1];
      InsertKeepsOrder(front, x, key, k);
      FilterAppend(Insert(front, x, key), last, KeyIs(key, k));
    }
  }

  /** Sorting is stable: ascending, and the elements of each key in the order they came. */
  lemma {:induction false} SortIsStable<T(!new)>(s: seq<T>, key: T -> int)
    ensures Ascending(SortBy(s, key), key)
    ensures forall k :: Filter(SortBy(s, key), KeyIs(key, k)) == Filter(s, KeyIs(key, k))
  {
    if |s| == 0 {
    } else {
      var front, last := s[..|s| - 1], s[|s| - 1];
      SortIsStable(front, key);
      InsertSorts(SortBy(front, key), last, key);
      forall k ensures Filter(SortBy(s, key), KeyIs(key, k)) == Filter(s, KeyIs(key, k)) {
        InsertKeepsOrder(SortBy(front, key), last, key, k);
      }
    }
  }

  lemma {:induction false} FirstOfFilter<T>(s: seq<T>, key: T -> int, k: int)
    ensures var same := Filter(s, KeyIs(key, k));
            First(s, key, k) == if same == [] then None else Some(same[0])
  {
    if |s| == 0 {
    } else {
      FirstOfFilter(s[..|s| - 1], key, k);
    }
  }

  lemma {:induction false} FirstExists<T(!new)>(s: seq<T>, key: T -> int, k: int)
    ensures First(s, key, k).Some? ==> First(s, key, k).value in s && key(First(s, key, k).value) == k
    ensures First(s, key, k).Some? <==> exists i :: 0 <= i < |s| && key(s[i]) == k
  {
    if |s| == 0 {
    } else {
      FirstExists(s[..|s| - 1], key, k);
    }
  }

  lemma FirstAppend<T>(s: seq<T>, x: T, key: T -> int, k: int)
    ensures First(s + [x], key, k) == if First(s, key, k).None? && key(x) == k then Some(x) else First(s, key, k)
  {
    assert (s + [x])[..|s|] == s;
  }

  /** `kept` holds the first element of every key of `s`, and nothing else. */
  ghost predicate Firsts<T(!new)>(s: seq<T>, kept: seq<T>, key: T -> int) {
    forall x :: x in kept <==> First(s, key, key(x)) == Some(x)
  }

  lemma FirstsGrow<T(!new)>(front: seq<T>, kept: seq<T>, last: T, key: T -> int)
    requires Firsts(front, kept, key)
    ensures Firsts(front + [last], if First(front, key, key(last)).Some? then kept else kept + [last], key)
  {
    forall x ensures First(front + [last], key, key(x)) ==
                     if First(front, key, key(x)).None? && key(last) == key(x) then Some(last)
                     else First(front, key, key(x))
    {
      FirstAppend(front, last, key, key(x));
    }
  }

  /** In sorted input a key that occurred before is that of the element just before. */
  lemma RepeatedKey<T(!new)>(s: seq<T>, n: nat, key: T -> int)
    requires Ascending(s, key) && 0 < n < |s|
    ensures First(s[..n], key, key(s[n])).Some? <==> key(s[n - 1]) == key(s[n])
    ensures forall i :: 0 <= i < n ==> key(s[..n][i]) <= key(s[n - 1])
  {
    FirstExists(s[..n], key, key(s[n]));
    assert s[..n][n - 1] == s[n - 1];
    assert key(s[n - 1]) <= key(s[n]);
  }

  lemma KeptBelow<T(!new)>(front: seq<T>, kept: seq<T>, last: T, key: T -> int)
    requires StrictlyAscending(kept, key) && Firsts(front, kept, key)
    requires forall i :: 0 <= i < |front| ==> key(front[i]) < key(last)
    ensures StrictlyAscending(kept + [last], key)
  {
    forall i | 0 <= i < |kept| ensures key(kept[i]) < key(last) {
      assert kept[i] in kept;
      FirstExists(front, key, key(kept[i]));
    }
  }

  /** On sorted input deduplication keeps the first element of every key. */
  lemma {:induction false} DedupKeepsFirst<T(!new)>(s: seq<T>, key: T -> int)
    requires Ascending(s, key)
    ensures StrictlyAscending(DedupBy(s, key), key) && Firsts(s, DedupBy(s, key), key)
  {
    if |s| > 0 {
      var n := |s| - 1;
      DedupKeepsFirst(s[..n], key);
      FirstsGrow(s[..n], DedupBy(s[..n], key), s[n], key);
      assert s == s[..n] + [s[n]];
      if n > 0 {
        RepeatedKey(s, n, key);
        if key(s[n - 1]) != key(s[n]) {
          assert key(s[n - 1]) < key(s[n]);
          KeptBelow(s[..n], DedupBy(s[..n], key), s[n], key);
        }
      }
    }
  }

  // --- The plan ---

  function TargetPid(): Target -> int {
    (t: Target) => t.pid
  }

  function HolderPid(): Holder -> int {
    (h: Holder) => h.pid
  }

  /** Not to be terminated without the operator, and with that pid. */
  function LeftAlone(pid: int): Holder -> bool {
    (h: Holder) => !Stale(h) && h.pid == pid
  }

  /** The first stale holder with that pid. */
  function FirstStale(report: seq<Holder>, pid: int): Option<Holder> {
    if report == [] then None else
      var front, last := FirstStale(report[..|report| - 1], pid), report[|report| - 1];
      if front.None? && Stale(last) && last.pid == pid then Some(last) else front
  }

  function TargetOfAny(h: Option<Holder>): Option<Target> {
    match h
    case None => None
    case Some(holder) => Some(TargetOf(holder))
  }

  /** One target for each pid with a stale holder, made of the first of them, by ascending pid. */
  ghost predicate PlannedFor(report: seq<Holder>, targets: seq<Target>) {
    && (forall i, j :: 0 <= i < j < |targets| ==> targets[i].pid < targets[j].pid)
    && (forall t :: t in targets <==> TargetOfAny(FirstStale(report, t.pid)) == Some(t))
  }

  /** Every other holder, by ascending pid, those of one pid in the order of the report. */
  ghost predicate ManualFor(report: seq<Holder>, manual: seq<Holder>) {
    && (forall i, j :: 0 <= i < j < |manual| ==> manual[i].pid <= manual[j].pid)
    && (forall pid :: Filter(manual, KeyIs(HolderPid(), pid)) == Filter(report, LeftAlone(pid)))
  }

  /** What the two lists hold after part of the report, before sorting. */
  ghost predicate Pushed(report: seq<Holder>, targets: seq<Target>, manual: seq<Holder>) {
    && (forall pid :: First(targets, TargetPid(), pid) == TargetOfAny(FirstStale(report, pid)))
    && (forall pid :: Filter(manual, KeyIs(HolderPid(), pid)) == Filter(report, LeftAlone(pid)))
  }

  lemma PushOne(report: seq<Holder>, h: Holder, targets: seq<Target>, manual: seq<Holder>)
    requires Pushed(report, targets, manual)
    ensures Stale(h) ==> Pushed(report + [h], targets + [TargetOf(h)], manual)
    ensures !Stale(h) ==> Pushed(report + [h], targets, manual + [h])
  {
    assert (report + [h])[..|report|] == report && (targets + [TargetOf(h)])[..|targets|] == targets;
    forall pid ensures Filter(report + [h], LeftAlone(pid)) ==
                       Filter(report, LeftAlone(pid)) + (if LeftAlone(pid)(h) then [h] else [])
    {
      FilterAppend(report, h, LeftAlone(pid));
    }
    forall pid ensures Filter(manual + [h], KeyIs(HolderPid(), pid)) ==
                       Filter(manual, KeyIs(HolderPid(), pid)) + (if h.pid == pid then [h] else [])
    {
      FilterAppend(manual, h, KeyIs(HolderPid(), pid));
    }
  }

  lemma SortedTargets(report: seq<Holder>, targets: seq<Target>, manual: seq<Holder>)
    requires Pushed(report, targets, manual)
    ensures PlannedFor(report, DedupBy(SortBy(targets, TargetPid()), TargetPid()))
  {
    var sorted := SortBy(targets, TargetPid());
    SortIsStable(targets, TargetPid());
    DedupKeepsFirst(sorted, TargetPid());
    forall pid ensures First(sorted, TargetPid(), pid) == First(targets, TargetPid(), pid) {
      FirstOfFilter(sorted, TargetPid(), pid);
      FirstOfFilter(targets, TargetPid(), pid);
    }
  }

  /** `plan_stale_db_holder_remediation`. */
  method PlanRemediation(report: seq<Holder>) returns (targets: seq<Target>, manual: seq<Holder>)
    ensures PlannedFor(report, targets) && ManualFor(report, manual)
  {
    targets, manual := [], [];
    for i := 0 to |report|
      invariant Pushed(report[..i], targets, manual)
    {
      PushOne(report[..i], report[i], targets, manual);
      assert report[..i + 1] == report[..i] + [report[i]];
      if Stale(report[i]) {
        targets := targets + [TargetOf(report[i])];
      } else {
        manual := manual + [report[i]];
      }
    }
    assert report[..|report|] == report;
    SortedTargets(report, targets, manual);
    SortIsStable(manual, HolderPid());
    targets := DedupBy(SortBy(targets, TargetPid()), TargetPid());
    manual := SortBy(manual, HolderPid());
  }

  lemma {:induction false} FirstStaleIsStale(report: seq<Holder>, pid: int)
    ensures var h := FirstStale(report, pid); h.Some? ==> h.value in report && Stale(h.value) && h.value.pid == pid
    ensures (exists h :: h in report && Stale(h) && h.pid == pid) ==> FirstStale(report, pid).Some?
  {
    if |report| == 0 {
    } else {
      FirstStaleIsStale(report[..|report| - 1], pid);
      assert report == report[..|report| - 1] + [report[|report| - 1]];
    }
  }

  ghost predicate ShowsStale(report: seq<Holder>, pid: int) {
    exists h :: h in report && Stale(h) && h.pid == pid
  }

  /** The pids of a plan are those of the stale holders, each planned target is recognised in the report it was planned
      from, and no two have the same pid. */
  lemma PlanIsSound(report: seq<Holder>, targets: seq<Target>)
    requires PlannedFor(report, targets)
    ensures DistinctPids(targets)
    ensures forall pid :: HasTarget(targets, pid) <==> ShowsStale(report, pid)
    ensures forall t :: t in targets ==> AnyMatches(t, report)
  {
    forall pid ensures HasTarget(targets, pid) <==> ShowsStale(report, pid) {
      FirstStaleIsStale(report, pid);
      var h := FirstStale(report, pid);
      if h.Some? {
        assert TargetOf(h.value) in targets;
      }
      if HasTarget(targets, pid) {
        var k :| 0 <= k < |targets| && targets[k].pid == pid;
        assert targets[k] in targets;
      }
    }
    forall t | t in targets ensures AnyMatches(t, report) {
      FirstStaleIsStale(report, t.pid);
      var k :| 0 <= k < |report| && report[k] == FirstStale(report, t.pid).value;
      TargetKnowsItsHolder(report[k], report[k]);
    }
  }

  /** A process that is sent a signal at daemon start was shown to be stale by the report the plan was made from, and
      again by an inspection just before the signal. */
  ghost predicate TwiceStale(report: seq<Holder>, trace: seq<Event>) {
    forall i :: 0 <= i < |trace| && trace[i].Sent? ==>
      && i >= 1 && trace[i - 1].Inspected?
      && ShowsStale(report, trace[i].pid) && ShowsStale(trace[i - 1].report, trace[i].pid)
  }

  lemma SignalsHitStale(report: seq<Holder>, targets: seq<Target>, d: bool, n: nat, trace: seq<Event>)
    requires PlannedFor(report, targets) && Safe(d, n, trace) && SignalsAmong(trace, targets)
    ensures TwiceStale(report, trace)
  {
    PlanIsSound(report, targets);
    forall i | 0 <= i < |trace| && trace[i].Sent?
      ensures && i >= 1 && trace[i - 1].Inspected?
              && ShowsStale(report, trace[i].pid) && ShowsStale(trace[i - 1].report, trace[i].pid)
    {
      assert Identified(trace, i) && HasTarget(targets, trace[i].pid);
      var seen := trace[i - 1].report;
      var k :| 0 <= k < |seen| && Matches(trace[i - 1].target, seen[k]);
      assert seen[k] in seen && Stale(seen[k]);
    }
  }

  /** Planning and terminating, as at daemon start: the guarantees that need distinct pids hold without condition, and
      only processes twice shown to be stale are signalled. */
  method Remediate(ops: ProcessOps, report: seq<Holder>, polls: nat) returns (outcome: Outcome)
    requires ops.trace == []
    modifies ops
    ensures Safe(true, polls, ops.trace) && outcome == Summary(ops.trace) && TwiceStale(report, ops.trace)
    ensures forall h :: h in report && Stale(h) ==>
              (TermSent(ops.trace, |ops.trace|, h.pid) && Concluded(ops.trace, h.pid)) || Refused(ops.trace, h.pid)
  {
    var targets, _ := PlanRemediation(report);
    PlanIsSound(report, targets);
    if targets == [] {
      outcome := Outcome([], [], []);
    } else {
      outcome := ops.TerminateTargets(targets, polls);
    }
    SignalsHitStale(report, targets, true, polls, ops.trace);
    NobodyForgotten(report, targets, ops.trace);
  }

  /** An inspection for a target with that pid did not show it. */
  ghost predicate Refused(trace: seq<Event>, pid: int) {
    exists i :: 0 <= i < |trace| && trace[i].Inspected? && trace[i].target.pid == pid
                && !AnyMatches(trace[i].target, trace[i].report)
  }

  ghost predicate Concluded(trace: seq<Event>, pid: int) {
    SeenGone(trace, pid) || KillSent(trace, pid)
  }

  lemma NobodyForgotten(report: seq<Holder>, targets: seq<Target>, trace: seq<Event>)
    requires PlannedFor(report, targets) && AllHandled(trace, targets)
    ensures forall h :: h in report && Stale(h) ==>
              (TermSent(trace, |trace|, h.pid) && Concluded(trace, h.pid)) || Refused(trace, h.pid)
  {
    PlanIsSound(report, targets);
    forall h | h in report && Stale(h)
      ensures (TermSent(trace, |trace|, h.pid) && Concluded(trace, h.pid)) || Refused(trace, h.pid)
    {
      assert ShowsStale(report, h.pid) && HasTarget(targets, h.pid);
      var k :| 0 <= k < |targets| && targets[k].pid == h.pid;
      assert Handled(trace, targets[k]);
    }
  }
}
