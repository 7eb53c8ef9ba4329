/** Any number of concurrent `route` calls over one pool (`src/endpoint_pool.rs`), interleaved between
    the steps that take an endpoint's cooldown lock. */
module EndpointRuns {
  import opened Prelude
  import opened Machine
  import opened EndpointPool

  /** Where a call stands: before the cooldown check of endpoint `i`, inside the strategy call, about
      to mark a retryable failure, waiting on a saturated endpoint, or about to clear after a success.
      `saturated` is the first endpoint found saturated so far. */
  datatype Pc =
    | Checking(i: nat, saturated: Option<nat>)
    | Trying(i: nat, saturated: Option<nat>)
    | Marking(i: nat, saturated: Option<nat>, retryAfter: nat)
    | Waiting(i: nat)
    | Succeeded(i: nat)
    | Finished

  datatype Answer = Served | Busy | Retryable(retryAfter: Option<nat>) | Fatal

  datatype Event =
    | Enter(call: nat)
    | Check(call: nat, i: nat, now: nat)
    | Answered(call: nat, i: nat, answer: Answer)
    | Mark(call: nat, i: nat, retryAfter: nat, now: nat)
    | WaitEnded(call: nat, i: nat, ok: bool)
    | Return(call: nat, i: nat)

  datatype Pool = Pool(size: nat, lastInstant: nat, clearOnSuccess: bool)
  datatype World = World(untils: seq<Option<nat>>, calls: map<nat, Pc>, clock: nat)

  function Start(p: Pool): World {
    World(seq(p.size, _ => None), map[], 0)
  }

  /** After the last endpoint a call waits on its saturated one, or reports failure. */
  function Advance(p: Pool, i: nat, saturated: Option<nat>): Pc {
    if i + 1 < p.size then Checking(i + 1, saturated)
    else if saturated.Some? then Waiting(saturated.value) else Finished
  }

  predicate At(w: World, c: nat, pc: Pc) {
    c in w.calls && w.calls[c] == pc
  }

  predicate Enabled(p: Pool, w: World, e: Event) {
    match e
    case Enter(c) => c !in w.calls
    case Check(c, i, now) => c in w.calls && w.calls[c].Checking? && w.calls[c].i == i < p.size && w.clock <= now
    case Answered(c, i, _) => c in w.calls && w.calls[c].Trying? && w.calls[c].i == i
    case Mark(c, i, retryAfter, now) =>
      && c in w.calls && w.calls[c].Marking? && w.calls[c].i == i < p.size && w.calls[c].retryAfter == retryAfter
      && w.clock <= now && DeadlineExists(now, retryAfter, p.lastInstant)
    case WaitEnded(c, i, _) => At(w, c, Waiting(i))
    case Return(c, i) => At(w, c, Succeeded(i)) && i < p.size
  }

  predicate Passes(w: World, i: nat, now: nat) {
    i < |w.untils| && !Cooling(w.untils[i], now)
  }

  function Step(p: Pool, w: World, e: Event): (v: World)
    requires Enabled(p, w, e) && |w.untils| == p.size
    ensures |v.untils| == p.size
  {
    match e
    case Enter(c) => w.(calls := w.calls[c := if p.size > 0 then Checking(0, None) else Finished])
    case Check(c, i, now) =>
      var saturated := w.calls[c].saturated;
      if Passes(w, i, now)
      then World(w.untils[i := None], w.calls[c := Trying(i, saturated)], now)
      else World(w.untils, w.calls[c := Advance(p, i, saturated)], now)
    case Answered(c, i, answer) =>
      var saturated := w.calls[c].saturated;
      w.(calls := w.calls[c :=
          match answer
          case Served => Succeeded(i)
          case Fatal => Finished
          case Busy => Advance(p, i, if saturated.None? then Some(i) else saturated)
          case Retryable(None) => Advance(p, i, saturated)
          case Retryable(Some(retryAfter)) => Marking(i, saturated, retryAfter)])
    case Mark(c, i, retryAfter, now) =>
      World(w.untils[i := Some(Deadline(now, retryAfter, p.lastInstant))],
            w.calls[c := Advance(p, i, w.calls[c].saturated)], now)
    case WaitEnded(c, i, ok) => w.(calls := w.calls[c := if ok then Succeeded(i) else Finished])
    case Return(c, i) =>
      World(if p.clearOnSuccess then w.untils[i := None] else w.untils, w.calls[c := Finished], w.clock)
  }

  function Next(p: Pool): (World, Event) -> Option<World> {
    (w: World, e: Event) => if |w.untils| == p.size && Enabled(p, w, e) then Some(Step(p, w, e)) else None
  }

  lemma {:induction false} SizeStays(p: Pool, es: seq<Event>)
    ensures var r := Follow(Next(p), Start(p), es); r.Some? ==> |r.value.untils| == p.size
  {
    if es == [] {
    } else {
      SizeStays(p, es[..|es| - 1]);
    }
  }

  function Run(p: Pool, es: seq<Event>): (r: Option<World>)
    ensures r.Some? ==> |r.value.untils| == p.size
  {
    SizeStays(p, es);
    Follow(Next(p), Start(p), es)
  }

  /** The deadline the most recent mark of endpoint `i` asked for. */
  function LatestMark(p: Pool, es: seq<Event>, i: nat): Option<nat> {
    if es == [] then None else
      var e := es[|es| - 1];
      if e.Mark? && e.i == i then Some(Deadline(e.now, e.retryAfter, p.lastInstant))
      else LatestMark(p, es[..|es| - 1], i)
  }

  /** Event `k` lets a call through the cooldown check of an endpoint. */
  predicate PassesAt(p: Pool, es: seq<Event>, k: nat) {
    && k < |es| && es[k].Check? && Run(p, es[..k]).Some?
    && Passes(Run(p, es[..k]).value, es[k].i, es[k].now)
  }

  /** No call was let through before the deadline of the endpoint's latest mark. */
  ghost predicate Respected(p: Pool, es: seq<Event>) {
    forall k: nat :: PassesAt(p, es, k) ==> !Cooling(LatestMark(p, es[..k], es[k].i), es[k].now)
  }

  ghost predicate AlwaysRespected(p: Pool) {
    forall es: seq<Event> :: Run(p, es).Some? ==> Respected(p, es)
  }

  /** Without clearing on success the latest mark stands until its deadline: an endpoint shows no
      cooldown only when it was never marked or its latest deadline has passed. */
  lemma {:induction false} LatestMarkStands(p: Pool, es: seq<Event>, i: nat)
    requires !p.clearOnSuccess && Run(p, es).Some? && i < p.size
    ensures var w := Run(p, es).value;
            if w.untils[i].Some? then LatestMark(p, es, i) == w.untils[i]
            else !Cooling(LatestMark(p, es, i), w.clock)
  {
    if es == [] {
    } else {
      LatestMarkStands(p, es[..|es| - 1], i);
    }
  }

  lemma {:induction false} PrefixRuns(p: Pool, es: seq<Event>, k: nat)
    requires Run(p, es).Some? && k <= |es|
    ensures Run(p, es[..k]).Some?
    decreases |es|
  {
    if k < |es| {
      PrefixRuns(p, es[..|es| - 1], k);
      assert es[..|es| - 1][..k] == es[..k];
    } else {
      assert es[..k] == es;
    }
  }

  lemma NoClearingRespects(p: Pool)
    requires !p.clearOnSuccess
    ensures AlwaysRespected(p)
  {
    forall es: seq<Event>, k: nat | Run(p, es).Some? && PassesAt(p, es, k)
      ensures !Cooling(LatestMark(p, es[..k], es[k].i), es[k].now)
    {
      PrefixRuns(p, es, k + 1);
      assert es[..k + 1][..k] == es[..k];
      LatestMarkStands(p, es[..k], es[k].i);
    }
  }

  lemma {:induction false} LatestMarkIs(p: Pool, es: seq<Event>, k: nat)
    requires k < |es| && es[k].Mark? && forall j :: k < j < |es| ==> !(es[j].Mark? && es[j].i == es[k].i)
    ensures LatestMark(p, es, es[k].i) == Some(Deadline(es[k].now, es[k].retryAfter, p.lastInstant))
  {
    if k == |es| - 1 {
    } else {
      LatestMarkIs(p, es[..|es| - 1], k);
    }
  }

  /** In every interleaving without clearing: after a mark made at `t` that asks for `d`, a check of that endpoint lets
      its call through exactly from `t + d` on, as long as no later mark of the endpoint intervenes. */
  lemma MarkHoldsUntil(p: Pool, es: seq<Event>, k: nat, n: nat)
    requires !p.clearOnSuccess && Run(p, es).Some? && k < n < |es| && es[k].Mark? && es[n].Check? && es[n].i == es[k].i
    requires es[k].now + es[k].retryAfter <= p.lastInstant
    requires forall j :: k < j < n ==> !(es[j].Mark? && es[j].i == es[k].i)
    ensures var after := Run(p, es[..n + 1]);
            && after.Some? && es[n].call in after.value.calls
            && (after.value.calls[es[n].call].Trying? <==> es[n].now >= es[k].now + es[k].retryAfter)
  {
    PrefixRuns(p, es, n + 1);
    assert es[..n + 1][..n] == es[..n] && es[..n + 1][n] == es[n];
    assert es[..n][k] == es[k] && forall j :: 0 <= j < n ==> es[..n][j] == es[j];
    LatestMarkIs(p, es[..n], k);
    LatestMarkStands(p, es[..n], es[k].i);
  }

  lemma {:induction false} NeverMarked(p: Pool, es: seq<Event>, i: nat)
    requires Run(p, es).Some? && i < p.size && forall j :: 0 <= j < |es| ==> !(es[j].Mark? && es[j].i == i)
    ensures Run(p, es).value.untils[i] == None
  {
    if |es| == 0 {
    } else {
      NeverMarked(p, es[..|es| - 1], i);
    }
  }

  /** With or without clearing, a check lets its call through if the endpoint was never marked. */
  lemma UnmarkedIsOpen(p: Pool, es: seq<Event>, n: nat)
    requires Run(p, es).Some? && n < |es| && es[n].Check?
    requires forall j :: 0 <= j < n ==> !(es[j].Mark? && es[j].i == es[n].i)
    ensures var after := Run(p, es[..n + 1]);
            after.Some? && es[n].call in after.value.calls && after.value.calls[es[n].call].Trying?
  {
    PrefixRuns(p, es, n + 1);
    assert es[..n + 1][..n] == es[..n] && es[..n + 1][n] == es[n];
    NeverMarked(p, es[..n], es[n].i);
  }

  lemma Extend(p: Pool, es: seq<Event>, w: World, e: Event)
    requires Run(p, es) == Some(w) && Enabled(p, w, e)
    ensures Run(p, es + [e]) == Some(Step(p, w, e))
    ensures forall i :: LatestMark(p, es + [e], i) ==
              if e.Mark? && e.i == i then Some(Deadline(e.now, e.retryAfter, p.lastInstant)) else LatestMark(p, es, i)
  {
    assert (es + [e])[..|es|] == es;
  }

  /** Call `a` is inside the strategy when call `b` fails and marks the endpoint. */
  lemma MarkUnderway(p: Pool, a: nat, b: nat, hold: nat) returns (es: seq<Event>, w: World)
    requires p.size > 0 && a != b && 0 < hold <= p.lastInstant
    ensures Run(p, es) == Some(w) && w.clock == 0 && w.calls.Keys == {a, b}
    ensures At(w, a, Trying(0, None)) && LatestMark(p, es, 0) == Some(hold)
  {
    es, w := [], Start(p);
    var e := Enter(a);
    Extend(p, es, w, e); es, w := es + [e], Step(p, w, e);
    e := Check(a, 0, 0);
    Extend(p, es, w, e); es, w := es + [e], Step(p, w, e);
    e := Enter(b);
    Extend(p, es, w, e); es, w := es + [e], Step(p, w, e);
    e := Check(b, 0, 0);
    Extend(p, es, w, e); es, w := es + [e], Step(p, w, e);
    e := Answered(b, 0, Retryable(Some(hold)));
    Extend(p, es, w, e); es, w := es + [e], Step(p, w, e);
    e := Mark(b, 0, hold, 0);
    Extend(p, es, w, e); es, w := es + [e], Step(p, w, e);
  }

  /** With clearing on success an older success wipes a newer cooldown and a third call is let through. */
  lemma ClearingBreaks(p: Pool, a: nat, b: nat, c: nat, hold: nat)
    requires p.clearOnSuccess && p.size > 0 && 0 < hold <= p.lastInstant
    requires a != b && b != c && a != c
    ensures !AlwaysRespected(p)
  {
    var es, w := MarkUnderway(p, a, b, hold);
    var e := Answered(a, 0, Served);
    Extend(p, es, w, e); es, w := es + [e], Step(p, w, e);
    e := Return(a, 0);
    Extend(p, es, w, e); es, w := es + [e], Step(p, w, e);
    e := Enter(c);
    Extend(p, es, w, e); es, w := es + [e], Step(p, w, e);
    e := Check(c, 0, 0);
    Extend(p, es, w, e);
    assert (es + [e])[..|es|] == es;
    assert PassesAt(p, es + [e], |es|);
    assert !Respected(p, es + [e]);
  }

  /** Over all interleavings, no call passes the check before the deadline of the latest mark, if and
      only if the strategy keeps the default of not clearing cooldowns on success. */
  lemma CooldownsRespectedExactly(p: Pool)
    requires p.size > 0 && p.lastInstant > 0
    ensures AlwaysRespected(p) <==> !p.clearOnSuccess
  {
    if p.clearOnSuccess {
      ClearingBreaks(p, 0, 1, 2, 1);
    } else {
      NoClearingRespects(p);
    }
  }

  // --- What a call has seen when it ends ---

  ghost predicate Checked(es: seq<Event>, c: nat, j: nat) {
    exists k :: 0 <= k < |es| && es[k].Check? && es[k].call == c && es[k].i == j
  }

  ghost predicate FoundBusy(es: seq<Event>, c: nat, j: nat) {
    Answered(c, j, Busy) in es
  }

  /** The call checked every endpoint before `n`. */
  ghost predicate CheckedBelow(es: seq<Event>, c: nat, n: nat) {
    forall j :: 0 <= j < n ==> Checked(es, c, j)
  }

  /** `saturated` is the first endpoint before `n` the call found saturated, and it found none from `n` on. */
  ghost predicate FirstBusy(es: seq<Event>, c: nat, saturated: Option<nat>, n: nat) {
    match saturated
    case None => forall j: nat :: !FoundBusy(es, c, j)
    case Some(x) => x < n && FoundBusy(es, c, x) && forall j: nat :: j < x || n <= j ==> !FoundBusy(es, c, j)
  }

  /** The call was answered for good: it succeeded, failed fatally, or its wait failed. */
  ghost predicate WasDecided(es: seq<Event>, c: nat) {
    exists k :: 0 <= k < |es| && es[k].call == c &&
      (es[k].Return? || (es[k].Answered? && es[k].answer.Fatal?) || (es[k].WaitEnded? && !es[k].ok))
  }

  ghost predicate SeenSoFar(p: Pool, es: seq<Event>, c: nat, pc: Pc) {
    match pc
    case Checking(i, saturated) => i < p.size && CheckedBelow(es, c, i) && FirstBusy(es, c, saturated, i)
    case Trying(i, saturated) => i < p.size && CheckedBelow(es, c, i + 1) && FirstBusy(es, c, saturated, i)
    case Marking(i, saturated, _) => i < p.size && CheckedBelow(es, c, i + 1) && FirstBusy(es, c, saturated, i)
    case Waiting(i) => CheckedBelow(es, c, p.size) && FirstBusy(es, c, Some(i), p.size)
    case Succeeded(_) => true
    case Finished => WasDecided(es, c) || (CheckedBelow(es, c, p.size) && FirstBusy(es, c, None, p.size))
  }

  lemma SeenStays(p: Pool, es: seq<Event>, e: Event, c: nat, pc: Pc)
    requires SeenSoFar(p, es, c, pc) && e.call != c
    ensures SeenSoFar(p, es + [e], c, pc)
  {
    OthersChangeNothing(es, e, c);
  }

  lemma OthersChangeNothing(es: seq<Event>, e: Event, c: nat)
    requires e.call != c
    ensures forall j: nat :: Checked(es, c, j) ==> Checked(es + [e], c, j)
    ensures forall j: nat :: FoundBusy(es + [e], c, j) <==> FoundBusy(es, c, j)
    ensures WasDecided(es, c) ==> WasDecided(es + [e], c)
  {
    GrowsWith(es, e, c);
    BusyAppend(es, e, c);
  }

  lemma BusyAppend(es: seq<Event>, e: Event, c: nat)
    ensures forall j: nat :: FoundBusy(es + [e], c, j) <==> FoundBusy(es, c, j) || e == Answered(c, j, Busy)
  {
    forall j: nat ensures FoundBusy(es + [e], c, j) <==> FoundBusy(es, c, j) || e == Answered(c, j, Busy) {
      assert (es + [e])[|es|] == e;
    }
  }

  lemma GrowsWith(es: seq<Event>, e: Event, c: nat)
    ensures forall j: nat :: Checked(es, c, j) ==> Checked(es + [e], c, j)
    ensures forall j: nat :: FoundBusy(es, c, j) ==> FoundBusy(es + [e], c, j)
    ensures WasDecided(es, c) ==> WasDecided(es + [e], c)
  {
    var all := es + [e];
    assert forall k :: 0 <= k < |es| ==> all[k] == es[k];
    forall j: nat | Checked(es, c, j) ensures Checked(all, c, j) {
      var k :| 0 <= k < |es| && es[k].Check? && es[k].call == c && es[k].i == j;
      assert all[k].Check? && all[k].call == c && all[k].i == j;
    }
  }

  /** Going on to the next endpoint keeps what was seen. */
  lemma AdvanceSees(p: Pool, es: seq<Event>, c: nat, i: nat, saturated: Option<nat>)
    requires i < p.size && CheckedBelow(es, c, i + 1) && FirstBusy(es, c, saturated, i + 1)
    ensures SeenSoFar(p, es, c, Advance(p, i, saturated))
  {
  }

  lemma OwnCheck(p: Pool, es: seq<Event>, e: Event, saturated: Option<nat>)
    requires e.Check? && e.i < p.size && CheckedBelow(es, e.call, e.i) && FirstBusy(es, e.call, saturated, e.i)
    ensures CheckedBelow(es + [e], e.call, e.i + 1) && FirstBusy(es + [e], e.call, saturated, e.i)
  {
    GrowsWith(es, e, e.call);
    assert (es + [e])[|es|] == e;
    assert Checked(es + [e], e.call, e.i);
    BusyAppend(es, e, e.call);
  }

  lemma OwnAnswer(p: Pool, es: seq<Event>, e: Event, i: nat, saturated: Option<nat>)
    requires !e.Check? && i < p.size && CheckedBelow(es, e.call, i + 1) && FirstBusy(es, e.call, saturated, i)
    requires e.Answered? ==> e.i == i
    ensures CheckedBelow(es + [e], e.call, i + 1)
    ensures var busy := e.Answered? && e.answer.Busy?;
            && FirstBusy(es + [e], e.call, if busy && saturated.None? then Some(i) else saturated, i + 1)
            && (!busy ==> FirstBusy(es + [e], e.call, saturated, i))
  {
    GrowsWith(es, e, e.call);
    BusyAppend(es, e, e.call);
  }

  /** The call an event belongs to has seen what its new place says. */
  lemma MoverSees(p: Pool, es: seq<Event>, w: World, e: Event)
    requires Run(p, es) == Some(w) && Enabled(p, w, e)
    requires if e.call in w.calls then SeenSoFar(p, es, e.call, w.calls[e.call])
             else forall k :: 0 <= k < |es| ==> es[k].call != e.call
    ensures SeenSoFar(p, es + [e], e.call, Step(p, w, e).calls[e.call])
  {
    var all := es + [e];
    assert all[|es|] == e;
    match e
    case Enter(c) =>
    case Check(c, i, now) =>
      OwnCheck(p, es, e, w.calls[c].saturated);
      if !Passes(w, i, now) {
        AdvanceSees(p, all, c, i, w.calls[c].saturated);
      }
    case Answered(c, i, answer) =>
      OwnAnswer(p, es, e, i, w.calls[c].saturated);
      if answer.Busy? || answer == Retryable(None) {
        AdvanceSees(p, all, c, i, if answer.Busy? && w.calls[c].saturated.None? then Some(i) else w.calls[c].saturated);
      } else if answer.Fatal? {
        assert WasDecided(all, c);
      }
    case Mark(c, i, retryAfter, now) =>
      OwnAnswer(p, es, e, i, w.calls[c].saturated);
      AdvanceSees(p, all, c, i, w.calls[c].saturated);
    case WaitEnded(c, i, ok) => assert !ok ==> WasDecided(all, c);
    case Return(c, i) => assert WasDecided(all, c);
  }

  lemma {:induction false} CallsSee(p: Pool, es: seq<Event>, c: nat)
    requires Run(p, es).Some?
    ensures var w := Run(p, es).value;
            if c in w.calls then SeenSoFar(p, es, c, w.calls[c]) else forall k :: 0 <= k < |es| ==> es[k].call != c
  {
    if es == [] {
    } else {
      var front, e := es[..|es| - 1], es[|es| - 1];
      var w := Run(p, front).value;
      assert es == front + [e];
      CallsSee(p, front, c);
      if e.call == c {
        MoverSees(p, front, w, e);
      } else if c in w.calls {
        SeenStays(p, front, e, c, w.calls[c]);
      }
    }
  }

  /** In every interleaving a call ends without being decided only after it checked every endpoint and found none
      saturated, and it waits only after it checked every endpoint, on the first it found saturated. */
  lemma CallsEndForAReason(p: Pool, es: seq<Event>, c: nat)
    requires Run(p, es).Some? && c in Run(p, es).value.calls
    ensures var pc := Run(p, es).value.calls[c];
            && (pc.Finished? ==>
                  WasDecided(es, c) || (CheckedBelow(es, c, p.size) && forall j: nat :: !FoundBusy(es, c, j)))
            && (pc.Waiting? ==> CheckedBelow(es, c, p.size) && FoundBusy(es, c, pc.i)
                                && forall j: nat :: j < pc.i ==> !FoundBusy(es, c, j))
  {
    CallsSee(p, es, c);
  }
}
