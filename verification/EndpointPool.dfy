/** The model-endpoint scheduler of `src/endpoint_pool.rs`: stable priority order, and one `route`
    call against whatever the clock, the endpoints and the strategy answer. */
module EndpointPool {
  import opened Prelude

  /** Instants and durations are nanoseconds. */
  const MAX_COOLDOWN_HINT: nat := 60_000_000_000

  datatype Endpoint = Endpoint(id: string, priority: int)

  // --- Priority order ---

  datatype Indexed = Indexed(index: nat, endpoint: Endpoint)

  predicate Before(a: Indexed, b: Indexed) {
    a.endpoint.priority < b.endpoint.priority
    || (a.endpoint.priority == b.endpoint.priority && a.index < b.index)
  }

  predicate Ordered(s: seq<Indexed>) {
    forall i, j :: 0 <= i < j < |s| ==> Before(s[i], s[j])
  }

  function Enumerate(items: seq<Endpoint>): (r: seq<Indexed>)
    ensures |r| == |items|
    ensures forall i :: 0 <= i < |items| ==> r[i] == Indexed(i, items[i])
  {
    seq(|items|, i requires 0 <= i < |items| => Indexed(i, items[i]))
  }

  function Insert(x: Indexed, s: seq<Indexed>): seq<Indexed> {
    if s == [] || Before(x, s[0]) then [x] + s else [s[0]] + Insert(x, s[1..])
  }

  /** `sort_by_key(|(index, item)| (item.priority, *index))`. */
  function SortByPriority(s: seq<Indexed>): seq<Indexed> {
    if s == [] then [] else Insert(s[0], SortByPriority(s[1..]))
  }

  lemma {:induction false} InsertPermutes(x: Indexed, s: seq<Indexed>)
    ensures multiset(Insert(x, s)) == multiset{x} + multiset(s)
  {
    if s == [] || Before(x, s[0]) {
    } else {
      InsertPermutes(x, s[1..]);
      assert s == [s[0]] + s[1..];
    }
  }

  lemma {:induction false} InsertKeeps(x: Indexed, s: seq<Indexed>)
    requires Ordered(s) && forall y :: y in s ==> y.index != x.index
    ensures Ordered(Insert(x, s))
  {
    if s == [] || Before(x, s[0]) {
    } else {
      InsertKeeps(x, s[1..]);
      InsertPermutes(x, s[1..]);
      var t := Insert(x, s[1..]);
      forall i | 0 <= i < |t| ensures Before(s[0], t[i]) {
        assert t[i] in multiset(t);
        assert t[i] == x || t[i] in s[1..];
      }
    }
  }

  predicate DistinctIndexes(s: seq<Indexed>) {
    forall i, j :: 0 <= i < j < |s| ==> s[i].index != s[j].index
  }

  lemma {:induction false} SortPermutes(s: seq<Indexed>)
    ensures multiset(SortByPriority(s)) == multiset(s)
  {
    if |s| == 0 {
    } else {
      SortPermutes(s[1..]);
      InsertPermutes(s[0], SortByPriority(s[1..]));
      assert s == [s[0]] + s[1..];
    }
  }

  /** The pool holds every configured endpoint once, lower priority numbers first and configuration
      order among equals. */
  lemma {:induction false} SortIsStable(s: seq<Indexed>)
    requires DistinctIndexes(s)
    ensures Ordered(SortByPriority(s)) && multiset(SortByPriority(s)) == multiset(s)
  {
    SortPermutes(s);
    if |s| == 0 {
    } else {
      var rest := SortByPriority(s[1..]);
      SortIsStable(s[1..]);
      forall y | y in rest ensures y.index != s[0].index {
        assert y in multiset(rest);
      }
      InsertKeeps(s[0], rest);
    }
  }

  /** The order leaves no choice: any ordered arrangement of the same endpoints is that one. */
  lemma {:induction false} OrderIsUnique(a: seq<Indexed>, b: seq<Indexed>)
    requires Ordered(a) && Ordered(b) && multiset(a) == multiset(b)
    ensures a == b
  {
    assert |a| == |multiset(a)| == |multiset(b)| == |b|;
    if a == [] {
    } else {
      assert a[0] in multiset(b) && b[0] in multiset(a);
      assert a[0] == b[0];
      assert a == [a[0]] + a[1..] && b == [b[0]] + b[1..];
      assert multiset(a[1..]) == multiset(a) - multiset{a[0]};
      OrderIsUnique(a[1..], b[1..]);
    }
  }

  // --- One route call ---

  datatype Attempt<O, E> =
    | Output(output: O)
    | Saturated
    | Failed(error: E, tryNext: bool, retryAfter: Option<nat>)

  /** What one loop iteration sees if it runs: the clock at the cooldown check, again when the
      remaining time is measured, the strategy's answer, and the clock when a failure is marked. */
  datatype Visit<O, E> = Visit(checkedAt: nat, measuredAt: nat, attempt: Attempt<O, E>, markedAt: nat)

  datatype Waited<O, E> = WaitOutput(output: O) | WaitFailed(error: E)

  datatype Result<O, E> =
    | Ok(output: O)
    | Err(error: E)
    | AllCoolingDown(endpointCount: nat, retryAfter: nat, first: Option<E>)
    | NoEndpointAvailable

  predicate Cooling(until: Option<nat>, now: nat) {
    until.Some? && until.value > now
  }

  /** `now.checked_add(retry_after)`, or the 60-second hint when that is past the last instant. */
  function Deadline(now: nat, retryAfter: nat, lastInstant: nat): nat {
    if now + retryAfter <= lastInstant then now + retryAfter else now + MAX_COOLDOWN_HINT
  }

  /** `checked_add` succeeds, or the hint added in its place does; otherwise the source's addition panics. */
  predicate DeadlineExists(now: nat, retryAfter: nat, lastInstant: nat) {
    now + retryAfter <= lastInstant || now + MAX_COOLDOWN_HINT <= lastInstant
  }

  /** The mark this visit would make, if it makes one, has a deadline. */
  predicate MarkFits<O, E>(v: Visit<O, E>, lastInstant: nat) {
    v.attempt.Failed? && v.attempt.retryAfter.Some? ==>
      DeadlineExists(v.markedAt, v.attempt.retryAfter.value, lastInstant)
  }

  predicate Decides<O, E>(until: Option<nat>, v: Visit<O, E>) {
    !Cooling(until, v.checkedAt) && (v.attempt.Output? || (v.attempt.Failed? && !v.attempt.tryNext))
  }

  predicate IsSaturated<O, E>(until: Option<nat>, v: Visit<O, E>) {
    !Cooling(until, v.checkedAt) && v.attempt.Saturated?
  }

  predicate IsRetryable<O, E>(until: Option<nat>, v: Visit<O, E>) {
    !Cooling(until, v.checkedAt) && v.attempt.Failed? && v.attempt.tryNext
  }

  /** The wait an endpoint asks for: what is left of its cooldown, or the failure's own hint. */
  function Delay<O, E>(until: Option<nat>, v: Visit<O, E>): Option<nat> {
    if Cooling(until, v.checkedAt) then Some(SatSub(until.value, v.measuredAt))
    else if IsRetryable(until, v) then v.attempt.retryAfter
    else None
  }

  /** The endpoint's cooldown after a visit that does not end the call. */
  function AfterVisit<O, E>(until: Option<nat>, v: Visit<O, E>, lastInstant: nat): Option<nat> {
    if Cooling(until, v.checkedAt) then until
    else if IsRetryable(until, v) && v.attempt.retryAfter.Some?
    then Some(Deadline(v.markedAt, v.attempt.retryAfter.value, lastInstant))
    else None
  }

  function MinRetryAfter(current: Option<nat>, next: nat): nat {
    if current.Some? && current.value < next then current.value else next
  }

  class EndpointPool {
    const endpoints: seq<Endpoint>
    const lastInstant: nat
    var unavailableUntil: seq<Option<nat>>

    ghost predicate Valid()
      reads this
    {
      |unavailableUntil| == |endpoints|
    }

    constructor (items: seq<Endpoint>, lastInstant: nat)
      ensures Valid() && this.lastInstant == lastInstant
      ensures forall i :: 0 <= i < |endpoints| ==> unavailableUntil[i] == None
      ensures exists order: seq<Indexed> ::
                && Ordered(order) && multiset(order) == multiset(Enumerate(items))
                && |endpoints| == |order| && forall i :: 0 <= i < |order| ==> endpoints[i] == order[i].endpoint
    {
      var order := SortByPriority(Enumerate(items));
      SortIsStable(Enumerate(items));
      endpoints := seq(|order|, i requires 0 <= i < |order| => order[i].endpoint);
      this.lastInstant := lastInstant;
      unavailableUntil := seq(|order|, _ => None);
    }

    /** `temporary_unavailable_remaining`: an expired deadline is cleared on the way. */
    method CheckRemaining(i: nat, checkedAt: nat, measuredAt: nat) returns (remaining: Option<nat>)
      requires Valid() && i < |endpoints|
      modifies this
      ensures Valid()
      ensures remaining == if Cooling(old(unavailableUntil[i]), checkedAt)
                           then Some(SatSub(old(unavailableUntil[i]).value, measuredAt)) else None
      ensures remaining.Some? <==> old(unavailableUntil[i]).Some? && checkedAt < old(unavailableUntil[i]).value
      ensures remaining.Some? && measuredAt <= old(unavailableUntil[i]).value ==>
                measuredAt + remaining.value == old(unavailableUntil[i]).value
      ensures unavailableUntil == old(unavailableUntil)[i := if remaining.Some? then old(unavailableUntil[i]) else None]
    {
      match unavailableUntil[i]
      case Some(until) =>
        if until > checkedAt {
          return Some(SatSub(until, measuredAt));
        }
        unavailableUntil := unavailableUntil[i := None];
        return None;
      case None =>
        return None;
    }

    method MarkTemporarilyUnavailable(i: nat, retryAfter: nat, now: nat)
      requires Valid() && i < |endpoints| && DeadlineExists(now, retryAfter, lastInstant)
      modifies this
      ensures Valid()
      ensures unavailableUntil == old(unavailableUntil)[i := Some(Deadline(now, retryAfter, lastInstant))]
      ensures now + retryAfter <= lastInstant ==> unavailableUntil[i] == Some(now + retryAfter)
      ensures now + retryAfter > lastInstant ==> unavailableUntil[i] == Some(now + 60_000_000_000)
    {
      var sum := now + retryAfter;
      unavailableUntil := unavailableUntil[i := Some(if sum <= lastInstant then sum else now + MAX_COOLDOWN_HINT)];
    }

    /** The result is fixed by the endpoints in priority order: the first that is out of cooldown and
        succeeds or fails fatally; otherwise a wait on the first saturated one; otherwise an error with
        the first retryable failure and the smallest delay. Endpoints behind the deciding one are not
        touched. Waiting the delay it reports always frees some endpoint. */
    method Route<O, E>(visits: seq<Visit<O, E>>, waits: seq<Waited<O, E>>, clearOnSuccess: bool)
      returns (r: Result<O, E>)
      requires Valid() && |visits| == |waits| == |endpoints|
      requires forall i :: 0 <= i < |visits| ==> MarkFits(visits[i], lastInstant)
      modifies this
      ensures Valid()
      ensures forall i :: FirstToDecide(old(unavailableUntil), visits, i) ==>
                DecidedBy(old(unavailableUntil), unavailableUntil, visits, lastInstant, i, r)
      ensures NoneDecides(old(unavailableUntil), visits) ==>
                && VisitedUpTo(old(unavailableUntil), unavailableUntil, visits, lastInstant, |visits|)
                && (forall i :: FirstSaturated(old(unavailableUntil), visits, i) ==>
                      r == if waits[i].WaitOutput? then Ok(waits[i].output) else Err(waits[i].error))
                && (NoneSaturated(old(unavailableUntil), visits) ==> ReportsFailure(old(unavailableUntil), visits, r))
      ensures r.NoEndpointAvailable? <==> endpoints == []
      ensures r.AllCoolingDown? ==>
                NoneDecides(old(unavailableUntil), visits) && NoneSaturated(old(unavailableUntil), visits)
      ensures r.AllCoolingDown? ==> forall returnedAt: nat ::
                ReturnedBy(visits, returnedAt) ==> SomeAvailable(unavailableUntil, returnedAt + r.retryAfter)
      ensures forall i :: Fails(old(unavailableUntil), visits, i) ==>
                CoolsAsAsked(unavailableUntil, visits, lastInstant, i)
    {
      ghost var before := unavailableUntil;
      var done, firstRetryable, earliest, firstSaturated := TryEach(visits, clearOnSuccess);
      FailuresCool(before, unavailableUntil, visits, lastInstant);
      if done.Some? {
        return done.value;
      }
      if endpoints != [] {
        SomethingGathered(before, visits, firstRetryable, earliest, firstSaturated);
      }
      if firstSaturated.Some? {
        var i := firstSaturated.value;
        if waits[i].WaitFailed? {
          return Err(waits[i].error);
        }
        if clearOnSuccess {
          unavailableUntil := unavailableUntil[i := None];
        }
        return Ok(waits[i].output);
      }
      if earliest.Some? {
        RetryHintSuffices(before, unavailableUntil, visits, lastInstant, earliest.value);
        return AllCoolingDown(|endpoints|, earliest.value, firstRetryable);
      } else if firstRetryable.Some? {
        return Err(firstRetryable.value);
      }
      return NoEndpointAvailable;
    }

    /** The loop of `route`: ends the call at a deciding endpoint, or gathers what the rest needs. */
    method TryEach<O, E>(visits: seq<Visit<O, E>>, clearOnSuccess: bool)
      returns (done: Option<Result<O, E>>, firstRetryable: Option<E>, earliest: Option<nat>,
               firstSaturated: Option<nat>)
      requires Valid() && |visits| == |endpoints|
      requires forall i :: 0 <= i < |visits| ==> MarkFits(visits[i], lastInstant)
      modifies this
      ensures Valid()
      ensures done.Some? ==> exists i ::
                && FirstToDecide(old(unavailableUntil), visits, i)
                && DecidedBy(old(unavailableUntil), unavailableUntil, visits, lastInstant, i, done.value)
      ensures done.None? ==>
                && VisitedUpTo(old(unavailableUntil), unavailableUntil, visits, lastInstant, |visits|)
                && Gathered(old(unavailableUntil), visits, |visits|, firstRetryable, earliest, firstSaturated)
    {
      ghost var before := unavailableUntil;
      done, firstRetryable, earliest, firstSaturated := None, None, None, None;
      for i := 0 to |endpoints|
        invariant Valid() && |before| == |endpoints| && done.None?
        invariant VisitedUpTo(before, unavailableUntil, visits, lastInstant, i)
        invariant Gathered(before, visits, i, firstRetryable, earliest, firstSaturated)
      {
        done, firstRetryable, earliest, firstSaturated :=
          TryNext(visits, clearOnSuccess, i, before, firstRetryable, earliest, firstSaturated);
        if done.Some? {
          return;
        }
      }
    }

    /** One round of that loop; `before` is how the pool was when the call began. */
    method TryNext<O, E>(visits: seq<Visit<O, E>>, clearOnSuccess: bool, i: nat, ghost before: seq<Option<nat>>,
                         retryable: Option<E>, least: Option<nat>, busy: Option<nat>)
      returns (done: Option<Result<O, E>>, firstRetryable: Option<E>, earliest: Option<nat>,
               firstSaturated: Option<nat>)
      requires Valid() && |visits| == |endpoints| == |before| && i < |endpoints| && MarkFits(visits[i], lastInstant)
      requires VisitedUpTo(before, unavailableUntil, visits, lastInstant, i)
      requires Gathered(before, visits, i, retryable, least, busy)
      modifies this
      ensures Valid()
      ensures done.Some? ==>
                && FirstToDecide(before, visits, i)
                && DecidedBy(before, unavailableUntil, visits, lastInstant, i, done.value)
      ensures done.None? ==>
                && VisitedUpTo(before, unavailableUntil, visits, lastInstant, i + 1)
                && Gathered(before, visits, i + 1, firstRetryable, earliest, firstSaturated)
    {
      firstRetryable, earliest, firstSaturated := retryable, least, busy;
      ghost var middle := unavailableUntil;
      GatherOne(before, visits, i, firstRetryable, earliest, firstSaturated);
      var delay: Option<nat>, error: Option<E>, saturated: bool;
      done, delay, error, saturated := TryOne(i, visits[i], clearOnSuccess);
      if done.Some? {
        DecidingVisit(before, middle, visits, lastInstant, i, done.value, firstRetryable, earliest, firstSaturated);
        return;
      }
      OneMoreVisit(before, middle, visits, lastInstant, i);
      if delay.Some? {
        earliest := Some(MinRetryAfter(earliest, delay.value));
      }
      if firstSaturated.None? && saturated {
        firstSaturated := Some(i);
      }
      if firstRetryable.None? {
        firstRetryable := error;
      }
    }

    /** One endpoint: skipped while it cools; otherwise it ends the call, or is saturated, or failed in a way that lets
        the call go on, in which case it cools for as long as the failure asks. */
    method TryOne<O, E>(i: nat, v: Visit<O, E>, clearOnSuccess: bool)
      returns (done: Option<Result<O, E>>, delay: Option<nat>, error: Option<E>, saturated: bool)
      requires Valid() && i < |endpoints| && MarkFits(v, lastInstant)
      modifies this
      ensures Valid()
      ensures var until := old(unavailableUntil[i]);
              var cooling := until.Some? && v.checkedAt < until.value;
              && (cooling ==> done.None? && error.None? && !saturated && unavailableUntil == old(unavailableUntil)
                              && delay == Some(if v.measuredAt < until.value then until.value - v.measuredAt else 0))
              && (!cooling && v.attempt.Output? ==> done == Some(Ok(v.attempt.output)))
              && (!cooling && v.attempt.Saturated? ==> done.None? && delay.None? && error.None? && saturated)
              && (!cooling && v.attempt.Failed? && !v.attempt.tryNext ==> done == Some(Err(v.attempt.error)))
              && (!cooling && v.attempt.Failed? && v.attempt.tryNext ==>
                    done.None? && delay == v.attempt.retryAfter && error == Some(v.attempt.error) && !saturated)
              && unavailableUntil == old(unavailableUntil)[i :=
                   if cooling then until
                   else if v.attempt.Failed? && v.attempt.tryNext && v.attempt.retryAfter.Some?
                   then Some(Deadline(v.markedAt, v.attempt.retryAfter.value, lastInstant))
                   else None]
    {
      var remaining := CheckRemaining(i, v.checkedAt, v.measuredAt);
      if remaining.Some? {
        return None, remaining, None, false;
      }
      match v.attempt
      case Output(output) =>
        if clearOnSuccess {
          unavailableUntil := unavailableUntil[i := None];
        }
        return Some(Ok(output)), None, None, false;
      case Saturated =>
        return None, None, None, true;
      case Failed(error, tryNext, retryAfter) =>
        if !tryNext {
          return Some(Err(error)), None, None, false;
        }
        if retryAfter.Some? {
          MarkTemporarilyUnavailable(i, retryAfter.value, v.markedAt);
        }
        return None, retryAfter, Some(error), false;
    }
  }

  /** What the first `n` endpoints, none of which ended the call, add up to. */
  ghost predicate Gathered<O, E>(untils: seq<Option<nat>>, visits: seq<Visit<O, E>>, n: nat,
                                 firstRetryable: Option<E>, earliest: Option<nat>, firstSaturated: Option<nat>)
    requires |untils| == |visits| && n <= |visits|
  {
    && (forall j :: 0 <= j < n ==> !Decides(untils[j], visits[j]))
    && (firstSaturated.None? ==> forall j :: 0 <= j < n ==> !IsSaturated(untils[j], visits[j]))
    && (firstSaturated.Some? ==> firstSaturated.value < n && FirstSaturated(untils, visits, firstSaturated.value))
    && FirstError(untils, visits, n, firstRetryable)
    && Smallest(untils, visits, n, earliest)
  }

  /** One more endpoint that does not end the call. */
  lemma GatherOne<O, E>(untils: seq<Option<nat>>, visits: seq<Visit<O, E>>, i: nat,
                        firstRetryable: Option<E>, earliest: Option<nat>, firstSaturated: Option<nat>)
    requires |untils| == |visits| && i < |visits|
    requires Gathered(untils, visits, i, firstRetryable, earliest, firstSaturated)
    ensures !Decides(untils[i], visits[i]) ==>
              Gathered(untils, visits, i + 1,
                       if firstRetryable.None? && IsRetryable(untils[i], visits[i])
                       then Some(visits[i].attempt.error) else firstRetryable,
                       var d := Delay(untils[i], visits[i]);
                       if d.Some? then Some(MinRetryAfter(earliest, d.value)) else earliest,
                       if firstSaturated.None? && IsSaturated(untils[i], visits[i]) then Some(i) else firstSaturated)
  {
    var d := Delay(untils[i], visits[i]);
    if d.Some? && earliest.Some? && earliest.value < d.value {
      var k :| 0 <= k < i && Delay(untils[k], visits[k]) == earliest;
      assert Delay(untils[k], visits[k]) == Some(MinRetryAfter(earliest, d.value));
    }
  }

  lemma OneMoreVisit<O, E>(before: seq<Option<nat>>, middle: seq<Option<nat>>, visits: seq<Visit<O, E>>,
                           lastInstant: nat, i: nat)
    requires |before| == |middle| == |visits| && i < |visits| && VisitedUpTo(before, middle, visits, lastInstant, i)
    ensures VisitedUpTo(before, middle[i := AfterVisit(middle[i], visits[i], lastInstant)], visits, lastInstant, i + 1)
  {
  }

  lemma DecidingVisit<O, E>(before: seq<Option<nat>>, middle: seq<Option<nat>>, visits: seq<Visit<O, E>>,
                            lastInstant: nat, i: nat, r: Result<O, E>,
                            firstRetryable: Option<E>, earliest: Option<nat>, firstSaturated: Option<nat>)
    requires |before| == |middle| == |visits| && i < |visits| && VisitedUpTo(before, middle, visits, lastInstant, i)
    requires Gathered(before, visits, i, firstRetryable, earliest, firstSaturated) && Decides(before[i], visits[i])
    requires r == if visits[i].attempt.Output? then Ok(visits[i].attempt.output) else Err(visits[i].attempt.error)
    ensures FirstToDecide(before, visits, i) && DecidedBy(before, middle[i := None], visits, lastInstant, i, r)
  {
  }

  /** Every endpoint leaves a trace: only an empty pool gathers nothing. */
  lemma SomethingGathered<O, E>(untils: seq<Option<nat>>, visits: seq<Visit<O, E>>,
                                firstRetryable: Option<E>, earliest: Option<nat>, firstSaturated: Option<nat>)
    requires |untils| == |visits| > 0 && Gathered(untils, visits, |visits|, firstRetryable, earliest, firstSaturated)
    ensures firstRetryable.Some? || earliest.Some? || firstSaturated.Some?
  {
    assert IsSaturated(untils[0], visits[0]) || IsRetryable(untils[0], visits[0]) || Delay(untils[0], visits[0]).Some?;
  }

  /** The call reaches endpoint `i`, finds it out of cooldown, and it fails in a way that lets the call go on and names
      a delay. */
  ghost predicate Fails<O, E>(untils: seq<Option<nat>>, visits: seq<Visit<O, E>>, i: int)
    requires |untils| == |visits|
  {
    && 0 <= i < |visits| && (forall j :: 0 <= j < i ==> !Decides(untils[j], visits[j]))
    && (untils[i].Some? ==> untils[i].value <= visits[i].checkedAt)
    && visits[i].attempt.Failed? && visits[i].attempt.tryNext && visits[i].attempt.retryAfter.Some?
  }

  /** The endpoint cools until the moment of its failure plus the delay it named, if that instant exists. */
  predicate CoolsAsAsked<O, E>(untils: seq<Option<nat>>, visits: seq<Visit<O, E>>, lastInstant: nat, i: int)
    requires |untils| == |visits| && 0 <= i < |visits|
    requires visits[i].attempt.Failed? && visits[i].attempt.retryAfter.Some?
  {
    var until := visits[i].markedAt + visits[i].attempt.retryAfter.value;
    until <= lastInstant ==> untils[i] == Some(until)
  }

  lemma FailuresCool<O, E>(
    before: seq<Option<nat>>, after: seq<Option<nat>>, visits: seq<Visit<O, E>>, lastInstant: nat)
    requires |before| == |after| == |visits|
    requires || (exists d, r: Result<O, E> ::
                   FirstToDecide(before, visits, d) && DecidedBy(before, after, visits, lastInstant, d, r))
             || VisitedUpTo(before, after, visits, lastInstant, |visits|)
    ensures forall i :: Fails(before, visits, i) ==> CoolsAsAsked(after, visits, lastInstant, i)
  {
    forall i | Fails(before, visits, i) ensures CoolsAsAsked(after, visits, lastInstant, i) {
      assert after[i] == AfterVisit(before[i], visits[i], lastInstant);
    }
  }

  /** Every clock reading of the call was made by then. */
  predicate ReturnedBy<O, E>(visits: seq<Visit<O, E>>, returnedAt: nat) {
    forall i :: 0 <= i < |visits| ==> visits[i].measuredAt <= returnedAt && visits[i].markedAt <= returnedAt
  }

  predicate SomeAvailable(untils: seq<Option<nat>>, now: nat) {
    exists i :: 0 <= i < |untils| && !Cooling(untils[i], now)
  }

  /** Waiting the smallest delay, counted from any moment after the call's last clock reading, leaves some endpoint out
      of cooldown. */
  lemma RetryHintSuffices<O, E>(
    before: seq<Option<nat>>, after: seq<Option<nat>>, visits: seq<Visit<O, E>>, lastInstant: nat, delay: nat)
    requires |before| == |after| == |visits|
    requires forall i :: 0 <= i < |visits| ==> MarkFits(visits[i], lastInstant)
    requires VisitedUpTo(before, after, visits, lastInstant, |visits|)
    requires Smallest(before, visits, |visits|, Some(delay))
    ensures forall returnedAt: nat :: ReturnedBy(visits, returnedAt) ==> SomeAvailable(after, returnedAt + delay)
  {
    var i :| 0 <= i < |visits| && Delay(before[i], visits[i]) == Some(delay);
    assert after[i] == AfterVisit(before[i], visits[i], lastInstant);
    forall returnedAt: nat | ReturnedBy(visits, returnedAt) ensures SomeAvailable(after, returnedAt + delay) {
      assert !Cooling(after[i], returnedAt + delay);
    }
  }

  /** The first `n` endpoints were visited without ending the call; the rest are as before. */
  predicate VisitedUpTo<O, E>(before: seq<Option<nat>>, after: seq<Option<nat>>, visits: seq<Visit<O, E>>,
                              lastInstant: nat, n: nat)
    requires |before| == |after| == |visits|
  {
    && (forall j :: 0 <= j < n && j < |visits| ==> after[j] == AfterVisit(before[j], visits[j], lastInstant))
    && (forall j :: n <= j < |visits| ==> after[j] == before[j])
  }

  predicate FirstToDecide<O, E>(untils: seq<Option<nat>>, visits: seq<Visit<O, E>>, i: int)
    requires |untils| == |visits|
  {
    0 <= i < |visits| && Decides(untils[i], visits[i]) && forall j :: 0 <= j < i ==> !Decides(untils[j], visits[j])
  }

  predicate FirstSaturated<O, E>(untils: seq<Option<nat>>, visits: seq<Visit<O, E>>, i: int)
    requires |untils| == |visits|
  {
    && 0 <= i < |visits| && IsSaturated(untils[i], visits[i])
    && forall j :: 0 <= j < i ==> !IsSaturated(untils[j], visits[j])
  }

  /** Endpoint `i` gave the result, is left without a cooldown, and nothing behind it was touched. */
  predicate DecidedBy<O(==), E(==)>(before: seq<Option<nat>>, after: seq<Option<nat>>, visits: seq<Visit<O, E>>,
                            lastInstant: nat, i: int, r: Result<O, E>)
    requires |before| == |after| == |visits| && FirstToDecide(before, visits, i)
  {
    && r == (if visits[i].attempt.Output? then Ok(visits[i].attempt.output) else Err(visits[i].attempt.error))
    && VisitedUpTo(before, after, visits, lastInstant, i + 1)
    && after[i] == None
  }

  predicate NoneDecides<O, E>(untils: seq<Option<nat>>, visits: seq<Visit<O, E>>)
    requires |untils| == |visits|
  {
    forall i :: 0 <= i < |visits| ==> !Decides(untils[i], visits[i])
  }

  predicate NoneSaturated<O, E>(untils: seq<Option<nat>>, visits: seq<Visit<O, E>>)
    requires |untils| == |visits|
  {
    forall i :: 0 <= i < |visits| ==> !IsSaturated(untils[i], visits[i])
  }

  /** `error` is the first retryable failure among the first `n` endpoints, if there is one. */
  ghost predicate FirstError<O, E>(untils: seq<Option<nat>>, visits: seq<Visit<O, E>>, n: nat, error: Option<E>)
    requires |untils| == |visits| && n <= |visits|
  {
    if error.None? then forall j :: 0 <= j < n ==> !IsRetryable(untils[j], visits[j])
    else exists i :: 0 <= i < n && IsRetryable(untils[i], visits[i]) && visits[i].attempt.error == error.value
                     && forall j :: 0 <= j < i ==> !IsRetryable(untils[j], visits[j])
  }

  /** `delay` is the smallest delay the first `n` endpoints ask for, if any asks. */
  ghost predicate Smallest<O, E>(untils: seq<Option<nat>>, visits: seq<Visit<O, E>>, n: nat, delay: Option<nat>)
    requires |untils| == |visits| && n <= |visits|
  {
    if delay.None? then forall j :: 0 <= j < n ==> Delay(untils[j], visits[j]).None?
    else
      && (exists i :: 0 <= i < n && Delay(untils[i], visits[i]) == delay)
      && (forall j :: 0 <= j < n && Delay(untils[j], visits[j]).Some? ==>
            delay.value <= Delay(untils[j], visits[j]).value)
  }

  /** What the call reports when no endpoint decided it and none was saturated. */
  ghost predicate ReportsFailure<O, E>(untils: seq<Option<nat>>, visits: seq<Visit<O, E>>, r: Result<O, E>)
    requires |untils| == |visits|
  {
    match r
    case AllCoolingDown(count, retryAfter, first) =>
      && count == |visits| && Smallest(untils, visits, |visits|, Some(retryAfter))
      && FirstError(untils, visits, |visits|, first)
    case Err(error) =>
      Smallest(untils, visits, |visits|, None) && FirstError(untils, visits, |visits|, Some(error))
    case NoEndpointAvailable => |visits| == 0
    case Ok(_) => false
  }
}
