/** The receipt-fenced apply protocol of `src/historical_rejudge_apply_execution.rs`: dry runs, applies and
    other writers interleaved on one database, one database access at a time. */
module ApplyProtocol {
  import opened Prelude
  import opened Machine

  datatype Lease = SqliteWriter | HistoricalRejudgeWriter

  datatype Fence = Fence(schemaVersion: nat, sqliteWriter: nat, rejudgeWriter: nat)

  function Generation(f: Fence, lease: Lease): nat {
    match lease
    case SqliteWriter => f.sqliteWriter
    case HistoricalRejudgeWriter => f.rejudgeWriter
  }

  function Bumped(f: Fence, lease: Lease): Fence {
    match lease
    case SqliteWriter => f.(sqliteWriter := f.sqliteWriter + 1)
    case HistoricalRejudgeWriter => f.(rejudgeWriter := f.rejudgeWriter + 1)
  }

  function Other(lease: Lease): Lease {
    if lease.SqliteWriter? then HistoricalRejudgeWriter else SqliteWriter
  }

  /** A fence is read by three separate queries. `readAt` records, for each generation, how many leases
      had been acquired when its query ran. */
  datatype Reading = Reading(fence: Fence, sqliteReadAt: nat, rejudgeReadAt: nat)

  function ReadAt(r: Reading, lease: Lease): nat {
    match lease
    case SqliteWriter => r.sqliteReadAt
    case HistoricalRejudgeWriter => r.rejudgeReadAt
  }

  /** A fence read in progress: which queries have run, and what they returned. */
  datatype Query = Query(queries: nat, seen: Reading)

  const NO_QUERY := Query(0, Reading(Fence(0, 0, 0), 0, 0))

  /** One process. A dry run reads the fence into a receipt. An apply reads the fence for its plan, requires
      it to equal the receipt's, acquires a lease, reads the fence again, and is then refused or authorised. */
  datatype Process =
    | DryRun(query: Query)
    | Planning(receipt: Reading, query: Query)
    | Bound(receipt: Reading)
    | Leased(receipt: Reading, lease: Lease, generation: nat, at: nat, query: Query)
    | Authorised(receipt: Reading, lease: Lease, generation: nat, at: nat, check: Reading)
    | Refused

  /** `acquired` lists every lease acquisition so far, with the process that made it (`None`: any other writer). */
  datatype Acquisition = Acquisition(lease: Lease, holder: Option<nat>)
  datatype World = World(fence: Fence, acquired: seq<Acquisition>, processes: map<nat, Process>)

  datatype Event =
    | Migrate
    | OtherWriter(lease: Lease)
    | StartDryRun(p: nat)
    | StartApply(p: nat, receiptOf: nat)
    | RunQuery(p: nat)
    | CheckBinding(p: nat)
    | AcquireLease(p: nat, lease: Lease)
    | CheckFence(p: nat)

  /** The next of the three queries of `historical_rejudge_db_fence`. */
  function NextQuery(q: Query, fence: Fence, now: nat): Query {
    var s := q.seen;
    Query(q.queries + 1,
          if q.queries == 0 then s.(fence := s.fence.(schemaVersion := fence.schemaVersion))
          else if q.queries == 1 then s.(fence := s.fence.(sqliteWriter := fence.sqliteWriter), sqliteReadAt := now)
          else s.(fence := s.fence.(rejudgeWriter := fence.rejudgeWriter), rejudgeReadAt := now))
  }

  predicate Querying(p: Process) {
    (p.DryRun? || p.Planning? || p.Leased?) && p.query.queries < 3
  }

  predicate Has(w: World, p: nat) {
    p in w.processes
  }

  predicate Enabled(w: World, e: Event) {
    match e
    case Migrate => true
    case OtherWriter(_) => true
    case StartDryRun(p) => !Has(w, p)
    case StartApply(p, d) => !Has(w, p) && Has(w, d) && w.processes[d].DryRun? && w.processes[d].query.queries == 3
    case RunQuery(p) => Has(w, p) && Querying(w.processes[p])
    case CheckBinding(p) => Has(w, p) && w.processes[p].Planning? && w.processes[p].query.queries == 3
    case AcquireLease(p, _) => Has(w, p) && w.processes[p].Bound?
    case CheckFence(p) => Has(w, p) && w.processes[p].Leased? && w.processes[p].query.queries == 3
  }

  /** `validate_historical_rejudge_apply_lease_fence`, with the checked increment of the expected generation. */
  predicate FenceMatches(receipt: Fence, lease: Lease, generation: nat, current: Fence) {
    && Generation(receipt, lease) < U64_MAX
    && generation == Generation(receipt, lease) + 1
    && current == Bumped(receipt, lease)
  }

  function Step(w: World, e: Event): World
    requires Enabled(w, e)
  {
    var now := |w.acquired|;
    match e
    case Migrate => w.(fence := w.fence.(schemaVersion := w.fence.schemaVersion + 1))
    case OtherWriter(lease) => w.(fence := Bumped(w.fence, lease), acquired := w.acquired + [Acquisition(lease, None)])
    case StartDryRun(p) => w.(processes := w.processes[p := DryRun(NO_QUERY)])
    case StartApply(p, d) => w.(processes := w.processes[p := Planning(w.processes[d].query.seen, NO_QUERY)])
    case RunQuery(p) =>
      var q := NextQuery(w.processes[p].query, w.fence, now);
      w.(processes := w.processes[p := w.processes[p].(query := q)])
    case CheckBinding(p) =>
      var planned := w.processes[p];
      w.(processes := w.processes[p :=
          if planned.query.seen.fence == planned.receipt.fence then Bound(planned.receipt) else Refused])
    case AcquireLease(p, lease) =>
      var fence := Bumped(w.fence, lease);
      World(fence, w.acquired + [Acquisition(lease, Some(p))],
            w.processes[p := Leased(w.processes[p].receipt, lease, Generation(fence, lease), now, NO_QUERY)])
    case CheckFence(p) =>
      var l := w.processes[p];
      w.(processes := w.processes[p :=
          if FenceMatches(l.receipt.fence, l.lease, l.generation, l.query.seen.fence)
          then Authorised(l.receipt, l.lease, l.generation, l.at, l.query.seen) else Refused])
  }

  function Next(w: World, e: Event): Option<World> {
    if Enabled(w, e) then Some(Step(w, e)) else None
  }

  function Run(start: Fence, es: seq<Event>): Option<World> {
    Follow(Next, World(start, [], map[]), es)
  }

  // --- Counting acquisitions ---

  function Count(log: seq<Acquisition>, lease: Lease): nat {
    if log == [] then 0 else
      Count(log[..|log| - 1], lease) + if log[|log| - 1].lease == lease then 1 else 0
  }

  lemma {:induction false} CountGrows(log: seq<Acquisition>, i: nat, j: nat, lease: Lease)
    requires i <= j <= |log|
    ensures Count(log[..i], lease) <= Count(log[..j], lease)
    ensures Count(log[..i], lease) == Count(log[..j], lease) <==> forall k :: i <= k < j ==> log[k].lease != lease
    decreases j - i
  {
    if i == j {
    } else {
      CountGrows(log, i, j - 1, lease);
      assert log[..j][..j - 1] == log[..j - 1];
    }
  }

  // --- What every world satisfies ---

  /** A generation read when `at` leases had been acquired returned what was current then. */
  predicate ReadRight(start: Fence, log: seq<Acquisition>, r: Reading, lease: Lease) {
    && ReadAt(r, lease) <= |log|
    && Generation(r.fence, lease) == Generation(start, lease) + Count(log[..ReadAt(r, lease)], lease)
  }

  predicate QueryRight(start: Fence, log: seq<Acquisition>, q: Query) {
    && (q.queries >= 2 ==> ReadRight(start, log, q.seen, SqliteWriter))
    && (q.queries >= 3 ==> ReadRight(start, log, q.seen, HistoricalRejudgeWriter))
  }

  predicate ReceiptRight(start: Fence, log: seq<Acquisition>, r: Reading, before: nat) {
    forall lease: Lease :: ReadRight(start, log, r, lease) && ReadAt(r, lease) <= before
  }

  /** The lease a process holds is its own entry in the log, and its generation the count up to it. */
  predicate LeaseRight(start: Fence, log: seq<Acquisition>, p: nat, lease: Lease, generation: nat, at: nat) {
    && at < |log| && log[at] == Acquisition(lease, Some(p))
    && generation == Generation(start, lease) + Count(log[..at + 1], lease)
  }

  predicate ProcessRight(start: Fence, log: seq<Acquisition>, id: nat, p: Process) {
    match p
    case DryRun(q) => QueryRight(start, log, q)
    case Planning(receipt, q) =>
      && ReceiptRight(start, log, receipt, |log|) && QueryRight(start, log, q)
      && (q.queries >= 2 ==> receipt.sqliteReadAt <= q.seen.sqliteReadAt)
      && (q.queries >= 3 ==> receipt.rejudgeReadAt <= q.seen.rejudgeReadAt)
    case Bound(receipt) => ReceiptRight(start, log, receipt, |log|)
    case Leased(receipt, lease, generation, at, q) =>
      && ReceiptRight(start, log, receipt, at) && LeaseRight(start, log, id, lease, generation, at)
      && QueryRight(start, log, q)
      && (q.queries >= 2 ==> at < q.seen.sqliteReadAt) && (q.queries >= 3 ==> at < q.seen.rejudgeReadAt)
    case Authorised(receipt, lease, generation, at, check) =>
      && ReceiptRight(start, log, receipt, at) && LeaseRight(start, log, id, lease, generation, at)
      && ReceiptRight(start, log, check, |log|)
      && at < check.sqliteReadAt && at < check.rejudgeReadAt
      && FenceMatches(receipt.fence, lease, generation, check.fence)
    case Refused => true
  }

  ghost predicate Inv(start: Fence, w: World) {
    && (forall lease: Lease :: Generation(w.fence, lease) == Generation(start, lease) + Count(w.acquired, lease))
    && (forall p :: p in w.processes ==> ProcessRight(start, w.acquired, p, w.processes[p]))
  }

  /** Facts about the log so far are not disturbed by more acquisitions. */
  lemma RightStaysRight(start: Fence, log: seq<Acquisition>, a: Acquisition, id: nat, p: Process)
    requires ProcessRight(start, log, id, p)
    ensures ProcessRight(start, log + [a], id, p)
  {
    assert forall k :: 0 <= k <= |log| ==> (log + [a])[..k] == log[..k];
  }

  lemma QueryStaysRight(start: Fence, w: World, q: Query)
    requires Inv(start, w) && QueryRight(start, w.acquired, q) && q.queries < 3
    ensures QueryRight(start, w.acquired, NextQuery(q, w.fence, |w.acquired|))
  {
    assert w.acquired[..|w.acquired|] == w.acquired;
  }

  lemma QuerierIsRight(start: Fence, w: World, e: Event)
    requires Inv(start, w) && Enabled(w, e) && e.RunQuery?
    ensures ProcessRight(start, Step(w, e).acquired, e.p, Step(w, e).processes[e.p])
  {
    var x := w.processes[e.p];
    assert ProcessRight(start, w.acquired, e.p, x);
    if x.Planning? {
      assert ReadAt(x.receipt, SqliteWriter) <= |w.acquired|
        && ReadAt(x.receipt, HistoricalRejudgeWriter) <= |w.acquired|;
    }
    QueryStaysRight(start, w, x.query);
  }

  lemma HolderIsRight(start: Fence, w: World, e: Event)
    requires Inv(start, w) && Enabled(w, e) && e.AcquireLease?
    ensures ProcessRight(start, Step(w, e).acquired, e.p, Step(w, e).processes[e.p])
  {
    var v, x := Step(w, e), w.processes[e.p];
    assert ProcessRight(start, w.acquired, e.p, x);
    RightStaysRight(start, w.acquired, Acquisition(e.lease, Some(e.p)), e.p, x);
    FenceStaysRight(start, w, e, e.lease);
    assert v.acquired[..|w.acquired| + 1] == v.acquired;
  }

  /** The process an event moves ends up right. */
  lemma MoverIsRight(start: Fence, w: World, e: Event)
    requires Inv(start, w) && Enabled(w, e) && !e.Migrate? && !e.OtherWriter?
    ensures ProcessRight(start, Step(w, e).acquired, e.p, Step(w, e).processes[e.p])
  {
    match e
    case RunQuery(_) => QuerierIsRight(start, w, e);
    case AcquireLease(_, _) => HolderIsRight(start, w, e);
    case StartApply(_, d) => assert ProcessRight(start, w.acquired, d, w.processes[d]);
    case CheckBinding(p) => assert ProcessRight(start, w.acquired, p, w.processes[p]);
    case CheckFence(p) => assert ProcessRight(start, w.acquired, p, w.processes[p]);
    case _ =>
  }

  lemma FenceStaysRight(start: Fence, w: World, e: Event, lease: Lease)
    requires Inv(start, w) && Enabled(w, e)
    ensures Generation(Step(w, e).fence, lease) == Generation(start, lease) + Count(Step(w, e).acquired, lease)
  {
    var v := Step(w, e);
    assert Generation(w.fence, lease) == Generation(start, lease) + Count(w.acquired, lease);
    if e.OtherWriter? || e.AcquireLease? {
      assert v.acquired[..|v.acquired| - 1] == w.acquired;
    }
  }

  lemma StepKeepsInv(start: Fence, w: World, e: Event)
    requires Inv(start, w) && Enabled(w, e)
    ensures Inv(start, Step(w, e))
  {
    var v := Step(w, e);
    forall lease: Lease ensures Generation(v.fence, lease) == Generation(start, lease) + Count(v.acquired, lease) {
      FenceStaysRight(start, w, e, lease);
    }
    forall p | p in v.processes ensures ProcessRight(start, v.acquired, p, v.processes[p]) {
      if e.Migrate? {
      } else if e.OtherWriter? {
        RightStaysRight(start, w.acquired, Acquisition(e.lease, None), p, w.processes[p]);
      } else if p == e.p {
        MoverIsRight(start, w, e);
      } else if e.AcquireLease? {
        RightStaysRight(start, w.acquired, Acquisition(e.lease, Some(e.p)), p, w.processes[p]);
      }
    }
  }

  lemma {:induction false} RunKeepsInv(start: Fence, es: seq<Event>)
    requires Run(start, es).Some?
    ensures Inv(start, Run(start, es).value)
  {
    if es == [] {
    } else {
      RunKeepsInv(start, es[..|es| - 1]);
      StepKeepsInv(start, Run(start, es[..|es| - 1]).value, es[|es| - 1]);
    }
  }

  // --- The promises ---

  /** An apply that passed its checks; the deletion transaction is the next thing it does. */
  predicate MayMutate(w: World, p: nat) {
    p in w.processes && w.processes[p].Authorised?
  }

  /** No lease called `lease` was acquired from position `i` of the log up to `j`. */
  predicate Untouched(log: seq<Acquisition>, lease: Lease, i: nat, j: nat) {
    forall k :: i <= k < j && k < |log| ==> log[k].lease != lease
  }

  lemma UntouchedIsEqualCount(log: seq<Acquisition>, lease: Lease, i: nat, j: nat)
    requires i <= j <= |log|
    ensures Untouched(log, lease, i, j) <==> Count(log[..i], lease) == Count(log[..j], lease)
  {
    CountGrows(log, i, j, lease);
  }

  lemma FenceMatchesExactly(start: Fence, es: seq<Event>, p: nat)
    requires Run(start, es).Some? && Enabled(Run(start, es).value, CheckFence(p))
    ensures var w := Run(start, es).value;
            var x := w.processes[p];
            FenceMatches(x.receipt.fence, x.lease, x.generation, x.query.seen.fence) <==> Undisturbed(w.acquired, x)
  {
    RunKeepsInv(start, es);
    var w := Run(start, es).value;
    var x := w.processes[p];
    var other := Other(x.lease);
    assert ReceiptRight(start, w.acquired, x.query.seen, |w.acquired|);
    ReadsAgree(start, w.acquired, x.receipt, x.query.seen, other);
    OwnGeneration(start, w.acquired, p, x.lease, x.generation, x.at, x.receipt, x.query.seen);
  }

  /** Nobody else wrote: the schema is as in the receipt, no lease of the acquired name was taken between the receipt's
      reading and this acquisition or between it and the check, and none of the other name from the receipt's reading to
      the check. */
  predicate Undisturbed(log: seq<Acquisition>, x: Process)
    requires x.Leased?
  {
    var other := if x.lease.SqliteWriter? then HistoricalRejudgeWriter else SqliteWriter;
    && Generation(x.receipt.fence, x.lease) < U64_MAX
    && x.query.seen.fence.schemaVersion == x.receipt.fence.schemaVersion
    && Untouched(log, x.lease, ReadAt(x.receipt, x.lease), x.at)
    && Untouched(log, x.lease, x.at + 1, ReadAt(x.query.seen, x.lease))
    && Untouched(log, other, ReadAt(x.receipt, other), ReadAt(x.query.seen, other))
  }

  /** The fence check decides exactly whether anyone else wrote: in every run it authorises the apply if and only if it
      was undisturbed, and refuses it otherwise. */
  lemma FenceCheckIsExact(start: Fence, es: seq<Event>, p: nat)
    requires Run(start, es).Some? && Enabled(Run(start, es).value, CheckFence(p))
    ensures var w := Run(start, es).value;
            var v := Step(w, CheckFence(p));
            && (MayMutate(v, p) <==> Undisturbed(w.acquired, w.processes[p]))
            && (!MayMutate(v, p) ==> v.processes[p].Refused?)
            && v.fence == w.fence && v.acquired == w.acquired
  {
    FenceMatchesExactly(start, es, p);
  }

  /** The binding check lets an apply go on exactly if schema and both generations were read as in the receipt, that is,
      if the schema did not change and no lease of either name was acquired in between. */
  lemma BindingCheckIsExact(start: Fence, es: seq<Event>, p: nat)
    requires Run(start, es).Some? && Enabled(Run(start, es).value, CheckBinding(p))
    ensures var w := Run(start, es).value;
            var v, x := Step(w, CheckBinding(p)), w.processes[p];
            && (v.processes[p] == Bound(x.receipt) <==>
                  && x.query.seen.fence.schemaVersion == x.receipt.fence.schemaVersion
                  && (forall lease: Lease ::
                        Untouched(w.acquired, lease, ReadAt(x.receipt, lease), ReadAt(x.query.seen, lease))))
            && (v.processes[p] != Bound(x.receipt) ==> v.processes[p].Refused?)
  {
    RunKeepsInv(start, es);
    var w := Run(start, es).value;
    var x := w.processes[p];
    assert ProcessRight(start, w.acquired, p, x);
    ReadsAgree(start, w.acquired, x.receipt, x.query.seen, SqliteWriter);
    ReadsAgree(start, w.acquired, x.receipt, x.query.seen, HistoricalRejudgeWriter);
  }

  lemma ReadsAgree(start: Fence, log: seq<Acquisition>, early: Reading, late: Reading, lease: Lease)
    requires ReadRight(start, log, early, lease) && ReadRight(start, log, late, lease)
    requires ReadAt(early, lease) <= ReadAt(late, lease)
    ensures Generation(early.fence, lease) == Generation(late.fence, lease)
            <==> Untouched(log, lease, ReadAt(early, lease), ReadAt(late, lease))
  {
    UntouchedIsEqualCount(log, lease, ReadAt(early, lease), ReadAt(late, lease));
  }

  lemma OwnGeneration(start: Fence, log: seq<Acquisition>, p: nat, lease: Lease, generation: nat, at: nat,
                      early: Reading, late: Reading)
    requires ReadRight(start, log, early, lease) && ReadRight(start, log, late, lease)
    requires LeaseRight(start, log, p, lease, generation, at)
    requires ReadAt(early, lease) <= at < ReadAt(late, lease)
    ensures generation == Generation(early.fence, lease) + 1 <==> Untouched(log, lease, ReadAt(early, lease), at)
    ensures generation == Generation(late.fence, lease) <==> Untouched(log, lease, at + 1, ReadAt(late, lease))
  {
    assert log[..at + 1][..at] == log[..at];
    UntouchedIsEqualCount(log, lease, ReadAt(early, lease), at);
    UntouchedIsEqualCount(log, lease, at + 1, ReadAt(late, lease));
  }

  /** An authorised apply was alone: from the moment the receipt's generations were read until its own
      acquisition, which is in the log under its name, no lease of either name was acquired. */
  lemma AuthorisedMeansUndisturbed(start: Fence, es: seq<Event>, p: nat)
    requires Run(start, es).Some? && MayMutate(Run(start, es).value, p)
    ensures var w := Run(start, es).value;
            var x := w.processes[p];
            && x.at < |w.acquired| && w.acquired[x.at] == Acquisition(x.lease, Some(p))
            && forall lease: Lease :: ReadAt(x.receipt, lease) <= x.at
                                      && Untouched(w.acquired, lease, ReadAt(x.receipt, lease), x.at)
  {
    RunKeepsInv(start, es);
    var w := Run(start, es).value;
    forall lease: Lease ensures ReadAt(w.processes[p].receipt, lease) <= w.processes[p].at
                                && Untouched(w.acquired, lease, ReadAt(w.processes[p].receipt, lease),
                                             w.processes[p].at)
    {
      UndisturbedBy(start, w, p, lease);
    }
  }

  lemma UndisturbedBy(start: Fence, w: World, p: nat, lease: Lease)
    requires Inv(start, w) && MayMutate(w, p)
    ensures var x := w.processes[p];
            ReadAt(x.receipt, lease) <= x.at && Untouched(w.acquired, lease, ReadAt(x.receipt, lease), x.at)
  {
    var x, log := w.processes[p], w.acquired;
    assert ReadRight(start, log, x.receipt, lease) && ReadRight(start, log, x.check, lease);
    if lease == x.lease {
      OwnGeneration(start, log, p, lease, x.generation, x.at, x.receipt, x.check);
    } else {
      ReadsAgree(start, log, x.receipt, x.check, lease);
    }
  }

  /** Generations of one lease name are never given out twice. */
  lemma LaterLeaseIsNewer(
    start: Fence, log: seq<Acquisition>, p: nat, q: nat, lease: Lease, g: nat, h: nat, at: nat, later: nat)
    requires LeaseRight(start, log, p, lease, g, at) && LeaseRight(start, log, q, lease, h, later) && at < later
    ensures g < h
  {
    CountGrows(log, at + 1, later + 1, lease);
  }

  lemma SameLeaseSameProcess(start: Fence, w: World, p: nat, q: nat)
    requires Inv(start, w) && MayMutate(w, p) && MayMutate(w, q)
    requires w.processes[p].receipt.fence == w.processes[q].receipt.fence
    requires w.processes[p].lease == w.processes[q].lease && w.processes[p].at <= w.processes[q].at
    ensures p == q
  {
    var x, y := w.processes[p], w.processes[q];
    assert ProcessRight(start, w.acquired, p, x) && ProcessRight(start, w.acquired, q, y);
    if x.at < y.at {
      LaterLeaseIsNewer(start, w.acquired, p, q, x.lease, x.generation, y.generation, x.at, y.at);
    }
  }

  lemma OtherLeaseSeesTheFirst(start: Fence, w: World, p: nat, q: nat)
    requires Inv(start, w) && MayMutate(w, p) && MayMutate(w, q)
    requires w.processes[p].receipt.fence == w.processes[q].receipt.fence
    requires w.processes[p].at <= w.processes[q].at
    ensures w.processes[p].lease == w.processes[q].lease
  {
    var x, y, log := w.processes[p], w.processes[q], w.acquired;
    if x.lease != y.lease {
      assert ReadRight(start, log, y.check, x.lease);
      assert LeaseRight(start, log, p, x.lease, x.generation, x.at);
      CountGrows(log, x.at + 1, ReadAt(y.check, x.lease), x.lease);
    }
  }

  /** In every interleaving of any number of dry runs, applies, migrations and other writers: among all
      applies whose receipts carry the same fence, at most one is ever authorised to mutate. */
  lemma OneReceiptOneMutation(start: Fence, es: seq<Event>, p: nat, q: nat)
    requires Run(start, es).Some?
    requires var w := Run(start, es).value;
             MayMutate(w, p) && MayMutate(w, q) && w.processes[p].receipt.fence == w.processes[q].receipt.fence
    ensures p == q
  {
    RunKeepsInv(start, es);
    var w := Run(start, es).value;
    var (first, second) := if w.processes[p].at <= w.processes[q].at then (p, q) else (q, p);
    OtherLeaseSeesTheFirst(start, w, first, second);
    SameLeaseSameProcess(start, w, first, second);
  }

  // --- An undisturbed apply goes through ---

  lemma Extend(start: Fence, es: seq<Event>, w: World, e: Event)
    requires Run(start, es) == Some(w) && Enabled(w, e)
    ensures Run(start, es + [e]) == Some(Step(w, e))
  {
    FollowAppend(Next, World(start, [], map[]), es, w, e);
  }

  function Asked(w: World, p: nat): World
    requires p in w.processes && (w.processes[p].DryRun? || w.processes[p].Planning? || w.processes[p].Leased?)
  {
    var now := |w.acquired|;
    w.(processes := w.processes[p := w.processes[p].(query := Query(3, Reading(w.fence, now, now)))])
  }

  /** A fence read that nobody interrupts returns the fence. */
  lemma ReadsFence(start: Fence, es: seq<Event>, w: World, p: nat)
    requires Run(start, es) == Some(w) && p in w.processes && Querying(w.processes[p])
              && w.processes[p].query == NO_QUERY
    ensures Run(start, es + [RunQuery(p)] + [RunQuery(p)] + [RunQuery(p)]) == Some(Asked(w, p))
  {
    var e := RunQuery(p);
    var w1 := Step(w, e);
    var w2 := Step(w1, e);
    Extend(start, es, w, e);
    Extend(start, es + [e], w1, e);
    Extend(start, es + [e] + [e], w2, e);
    assert Step(w2, e).processes == Asked(w, p).processes;
  }

  /** The events of a dry run and of an apply that uses its receipt, one after the other. */
  function DryRunEvents(d: nat): seq<Event> {
    [StartDryRun(d), RunQuery(d), RunQuery(d), RunQuery(d)]
  }

  function ApplyEvents(p: nat, d: nat, lease: Lease): seq<Event> {
    [StartApply(p, d), RunQuery(p), RunQuery(p), RunQuery(p), CheckBinding(p), AcquireLease(p, lease),
     RunQuery(p), RunQuery(p), RunQuery(p), CheckFence(p)]
  }

  lemma DryRunReads(start: Fence, es: seq<Event>, w: World, d: nat) returns (v: World)
    requires Run(start, es) == Some(w) && d !in w.processes
    ensures Run(start, es + DryRunEvents(d)) == Some(v) && v.fence == w.fence && v.acquired == w.acquired
    ensures v.processes == w.processes[d := DryRun(Query(3, Reading(w.fence, |w.acquired|, |w.acquired|)))]
  {
    var w1 := Step(w, StartDryRun(d));
    Extend(start, es, w, StartDryRun(d));
    ReadsFence(start, es + [StartDryRun(d)], w1, d);
    v := Asked(w1, d);
    var q := RunQuery(d);
    assert es + [StartDryRun(d)] + [q] + [q] + [q] == es + DryRunEvents(d);
  }

  lemma PlanIsBound(start: Fence, es: seq<Event>, w: World, p: nat, d: nat) returns (v: World)
    requires Run(start, es) == Some(w) && p !in w.processes && d in w.processes && w.processes[d].DryRun?
    requires w.processes[d].query == Query(3, Reading(w.fence, |w.acquired|, |w.acquired|))
    ensures Run(start, es + [StartApply(p, d), RunQuery(p), RunQuery(p), RunQuery(p), CheckBinding(p)]) == Some(v)
    ensures v.fence == w.fence && v.acquired == w.acquired
    ensures v.processes == w.processes[p := Bound(Reading(w.fence, |w.acquired|, |w.acquired|))]
  {
    var w1 := Step(w, StartApply(p, d));
    Extend(start, es, w, StartApply(p, d));
    ReadsFence(start, es + [StartApply(p, d)], w1, p);
    var w2 := Asked(w1, p);
    var q := RunQuery(p);
    var so := es + [StartApply(p, d)] + [q] + [q] + [q];
    Extend(start, so, w2, CheckBinding(p));
    v := Step(w2, CheckBinding(p));
    assert so + [CheckBinding(p)] == es + [StartApply(p, d), q, q, q, CheckBinding(p)];
  }

  lemma LeaseIsAuthorised(start: Fence, es: seq<Event>, w: World, p: nat, lease: Lease) returns (v: World)
    requires Run(start, es) == Some(w) && p in w.processes
    requires w.processes[p] == Bound(Reading(w.fence, |w.acquired|, |w.acquired|))
    requires Generation(w.fence, lease) < U64_MAX
    ensures Run(start, es + [AcquireLease(p, lease), RunQuery(p), RunQuery(p), RunQuery(p), CheckFence(p)]) == Some(v)
    ensures MayMutate(v, p)
  {
    var w1 := Step(w, AcquireLease(p, lease));
    Extend(start, es, w, AcquireLease(p, lease));
    ReadsFence(start, es + [AcquireLease(p, lease)], w1, p);
    var w2 := Asked(w1, p);
    var q := RunQuery(p);
    var so := es + [AcquireLease(p, lease)] + [q] + [q] + [q];
    Extend(start, so, w2, CheckFence(p));
    v := Step(w2, CheckFence(p));
    assert so + [CheckFence(p)] == es + [AcquireLease(p, lease), q, q, q, CheckFence(p)];
  }

  /** After any run whatever, a dry run followed by an apply of its receipt, with nobody writing in between, reaches
      mutation, for either lease, unless the lease's generation is at its end. */
  lemma UndisturbedApplyGoesThrough(start: Fence, es: seq<Event>, d: nat, p: nat, lease: Lease)
    requires Run(start, es).Some? && d != p
    requires var w := Run(start, es).value;
             d !in w.processes && p !in w.processes && Generation(w.fence, lease) < U64_MAX
    ensures var r := Run(start, es + DryRunEvents(d) + ApplyEvents(p, d, lease)); r.Some? && MayMutate(r.value, p)
  {
    var w1 := DryRunReads(start, es, Run(start, es).value, d);
    var so1 := es + DryRunEvents(d);
    var w2 := PlanIsBound(start, so1, w1, p, d);
    var q := RunQuery(p);
    var so2 := so1 + [StartApply(p, d), q, q, q, CheckBinding(p)];
    var w3 := LeaseIsAuthorised(start, so2, w2, p, lease);
    assert so2 + [AcquireLease(p, lease), q, q, q, CheckFence(p)] == so1 + ApplyEvents(p, d, lease);
  }
}
