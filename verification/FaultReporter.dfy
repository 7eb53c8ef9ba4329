/** `DaemonRecoveryFaultReporter::record_fault_once` (`src/daemon_recovery.rs`): one call on its own,
    and any number of calls interleaved at every atomic step. */
module FaultReporter {
  import opened Prelude
  import opened Machine

  const FAULT_PERSIST_MAX_ATTEMPTS: nat := 3

  class Reporter {
    var reported: bool

    constructor ()
      ensures !reported
    {
      reported := false;
    }

    /** `persists(k)` says whether the call's attempt `k` would be acknowledged by the store. */
    method RecordFaultOnce(persists: nat -> bool) returns (attempts: nat, acknowledged: bool)
      modifies this
      ensures attempts <= FAULT_PERSIST_MAX_ATTEMPTS
      ensures old(reported) ==> attempts == 0 && !acknowledged && reported
      ensures acknowledged <==> !old(reported) && exists k :: 1 <= k <= FAULT_PERSIST_MAX_ATTEMPTS && persists(k)
      ensures acknowledged ==> persists(attempts)
      ensures forall k :: 1 <= k < attempts ==> !persists(k)
      ensures !old(reported) ==> (reported <==> acknowledged)
    {
      attempts, acknowledged := 0, false;
      if reported {
        return;
      }
      reported := true;
      while attempts < FAULT_PERSIST_MAX_ATTEMPTS
        invariant attempts <= FAULT_PERSIST_MAX_ATTEMPTS
        invariant forall k :: 1 <= k <= attempts ==> !persists(k)
      {
        attempts := attempts + 1;
        if persists(attempts) {
          acknowledged := true;
          return;
        }
      }
      reported := false;
    }
  }

  // --- Concurrent calls sharing one reporter ---

  /** Where a call stands: refused by the compare-exchange, `failed` attempts into its retry loop,
      about to restore the flag, or finished either way. */
  datatype Pc = Refused | Trying(failed: nat) | Restoring | Acknowledged | GaveUp

  datatype Event =
    | CompareExchange(call: nat)
    | Attempt(call: nat, ok: bool)
    | RestoreFlag(call: nat)

  datatype World = World(reported: bool, calls: map<nat, Pc>)

  const START := World(false, map[])

  predicate Enabled(w: World, e: Event) {
    match e
    case CompareExchange(c) => c !in w.calls
    case Attempt(c, _) => c in w.calls && w.calls[c].Trying?
    case RestoreFlag(c) => c in w.calls && w.calls[c].Restoring?
  }

  function Step(w: World, e: Event): World
    requires Enabled(w, e)
  {
    match e
    case CompareExchange(c) =>
      if w.reported then w.(calls := w.calls[c := Refused])
      else World(true, w.calls[c := Trying(0)])
    case Attempt(c, ok) =>
      var failed := w.calls[c].failed + 1;
      w.(calls := w.calls[c := if ok then Acknowledged
                               else if failed < FAULT_PERSIST_MAX_ATTEMPTS then Trying(failed)
                               else Restoring])
    case RestoreFlag(c) => World(false, w.calls[c := GaveUp])
  }

  function Next(w: World, e: Event): Option<World> {
    if Enabled(w, e) then Some(Step(w, e)) else None
  }

  /** The world an interleaving leads to, if each of its events was enabled when it happened. */
  function Run(es: seq<Event>): Option<World> {
    Follow(Next, START, es)
  }

  /** A call that won the compare-exchange and has not given the flag back. */
  predicate Holds(w: World, c: nat) {
    c in w.calls && (w.calls[c].Trying? || w.calls[c].Restoring? || w.calls[c].Acknowledged?)
  }

  function AttemptBy(c: nat): Event -> bool {
    (e: Event) => e.Attempt? && e.call == c
  }

  function Ack(): Event -> bool {
    (e: Event) => e.Attempt? && e.ok
  }

  /** The flag is owned: at most one call holds it, and it is set exactly while one does. */
  ghost predicate Exclusive(w: World) {
    && (forall c, d :: Holds(w, c) && Holds(w, d) ==> c == d)
    && (w.reported <==> exists c :: Holds(w, c))
  }

  /** The attempts call `c` made so far match its place in the retry loop. */
  predicate Counted(w: World, es: seq<Event>, c: nat) {
    var made := |Filter(es, AttemptBy(c))|;
    if c !in w.calls then made == 0 else
      match w.calls[c]
      case Refused => made == 0
      case Trying(failed) => made == failed < FAULT_PERSIST_MAX_ATTEMPTS
      case Restoring => made == FAULT_PERSIST_MAX_ATTEMPTS
      case GaveUp => made == FAULT_PERSIST_MAX_ATTEMPTS
      case Acknowledged => made <= FAULT_PERSIST_MAX_ATTEMPTS
  }

  ghost predicate AnyAcknowledged(w: World) {
    exists c :: c in w.calls && w.calls[c].Acknowledged?
  }

  lemma StepKeepsExclusive(w: World, e: Event)
    requires Exclusive(w) && Enabled(w, e)
    ensures Exclusive(Step(w, e))
  {
    var c, v := e.call, Step(w, e);
    assert forall d :: d != c ==> (Holds(v, d) <==> Holds(w, d));
    if e.CompareExchange? {
      assert !w.reported ==> Holds(v, c);
      assert w.reported ==> !Holds(v, c) && !Holds(w, c);
    } else {
      assert Holds(w, c);
      assert e.Attempt? ==> Holds(v, c);
    }
  }

  lemma {:induction false} RunIsExclusive(es: seq<Event>)
    requires Run(es).Some?
    ensures Exclusive(Run(es).value)
  {
    if es == [] {
    } else {
      RunIsExclusive(es[..|es| - 1]);
      StepKeepsExclusive(Run(es[..|es| - 1]).value, es[|es| - 1]);
    }
  }

  lemma {:induction false} RunIsCounted(es: seq<Event>, c: nat)
    requires Run(es).Some?
    ensures Counted(Run(es).value, es, c)
  {
    if es == [] {
    } else {
      RunIsCounted(es[..|es| - 1], c);
    }
  }

  lemma {:induction false} RunAcks(es: seq<Event>)
    requires Run(es).Some?
    ensures |Filter(es, Ack())| <= 1
    ensures AnyAcknowledged(Run(es).value) <==> |Filter(es, Ack())| == 1
  {
    if es == [] {
    } else {
      var front, e := es[..|es| - 1], es[|es| - 1];
      var w, v := Run(front).value, Run(es).value;
      RunAcks(front);
      RunIsExclusive(front);
      assert forall d :: d != e.call && d in w.calls ==> d in v.calls && v.calls[d] == w.calls[d];
      assert forall d :: d != e.call && d in v.calls ==> d in w.calls;
      if e.Attempt? {
        assert Holds(w, e.call);
        assert forall d :: d in w.calls && w.calls[d].Acknowledged? ==> Holds(w, d);
        assert e.ok ==> v.calls[e.call].Acknowledged?;
      }
    }
  }

  /** In every interleaving of any number of calls: at most one attempt is ever acknowledged, no call
      makes more than three, a call that gave up made exactly three, and the flag is free exactly when
      no call is still retrying, about to restore it or acknowledged, so a later call can take over. */
  lemma AcknowledgedAtMostOnce(es: seq<Event>, c: nat)
    requires Run(es).Some?
    ensures |Filter(es, Ack())| <= 1
    ensures |Filter(es, AttemptBy(c))| <= FAULT_PERSIST_MAX_ATTEMPTS
    ensures c in Run(es).value.calls && Run(es).value.calls[c].GaveUp? ==> |Filter(es, AttemptBy(c))| == 3
    ensures !Run(es).value.reported <==> forall d :: !Holds(Run(es).value, d)
  {
    RunAcks(es);
    RunIsCounted(es, c);
    RunIsExclusive(es);
  }

  /** After an acknowledgement the flag stays set for good: every later call is refused at once. */
  lemma {:induction false} AcknowledgementIsFinal(es: seq<Event>, later: seq<Event>, c: nat)
    requires Run(es + later).Some? && Run(es).Some?
    requires c in Run(es).value.calls && Run(es).value.calls[c].Acknowledged?
    ensures var w := Run(es + later).value;
            && w.reported && c in w.calls && w.calls[c].Acknowledged?
            && forall e :: e in later ==> e.CompareExchange? && e.call in w.calls && w.calls[e.call] == Refused
  {
    if later == [] {
      RunIsExclusive(es);
      assert es + later == es;
      assert Holds(Run(es).value, c);
    } else {
      var front, e := later[..|later| - 1], later[|later| - 1];
      assert (es + later)[..|es + later| - 1] == es + front;
      AcknowledgementIsFinal(es, front, c);
      RunIsExclusive(es + front);
      var w := Run(es + front).value;
      assert Holds(w, c);
      assert e.Attempt? || e.RestoreFlag? ==> Holds(w, e.call);
      assert later == front + [e];
    }
  }

  // --- What each step leads to ---

  lemma Extend(es: seq<Event>, w: World, e: Event)
    requires Run(es) == Some(w) && Enabled(w, e)
    ensures Run(es + [e]) == Some(Step(w, e))
  {
    FollowAppend(Next, START, es, w, e);
  }

  /** A new call gets the flag exactly if no call holds it, an attempt that persists is acknowledged, the third that
      does not is the last, and restoring frees the flag. */
  lemma StepsAreExact(es: seq<Event>, e: Event)
    requires Run(es + [e]).Some? && Run(es).Some?
    ensures var w, v := Run(es).value, Run(es + [e]).value;
            e.call in v.calls &&
            match e
            case CompareExchange(c) => v.calls[c] == if exists d :: Holds(w, d) then Refused else Trying(0)
            case Attempt(c, ok) =>
              var made := |Filter(es + [e], AttemptBy(c))|;
              v.calls[c] == if ok then Acknowledged else if made < 3 then Trying(made) else Restoring
            case RestoreFlag(c) => v.calls[c] == GaveUp && forall d :: !Holds(v, d)
  {
    var w := Run(es).value;
    FollowAppend(Next, START, es, w, e);
    RunIsExclusive(es);
    RunIsExclusive(es + [e]);
    RunIsCounted(es, e.call);
    FilterAppend(es, e, AttemptBy(e.call));
  }

  /** The first `n` steps of a call on its own whose attempts fail. */
  function Alone(c: nat, n: nat): seq<Event> {
    if n == 0 then [CompareExchange(c)] else Alone(c, n - 1) + [Attempt(c, false)]
  }

  lemma {:induction false} AloneTries(es: seq<Event>, w: World, c: nat, n: nat)
    requires Run(es) == Some(w) && !w.reported && c !in w.calls && n < 3
    ensures Run(es + Alone(c, n)) == Some(World(true, w.calls[c := Trying(n)]))
  {
    if n == 0 {
      Extend(es, w, CompareExchange(c));
    } else {
      AloneTries(es, w, c, n - 1);
      var v := World(true, w.calls[c := Trying(n - 1)]);
      Extend(es + Alone(c, n - 1), v, Attempt(c, false));
      assert es + Alone(c, n) == es + Alone(c, n - 1) + [Attempt(c, false)];
      assert Step(v, Attempt(c, false)).calls == w.calls[c := Trying(n)];
    }
  }

  /** After any run that leaves the flag free, a call that nobody disturbs gets it; it is acknowledged by its first
      attempt that persists, if that is one of three, and otherwise gives the flag back. */
  lemma UndisturbedCallGoesThrough(es: seq<Event>, c: nat, n: nat)
    requires Run(es).Some? && !Run(es).value.reported && c !in Run(es).value.calls
    ensures n < 3 ==>
              var after := Run(es + Alone(c, n) + [Attempt(c, true)]);
              after == Some(World(true, Run(es).value.calls[c := Acknowledged]))
    ensures n == 2 ==>
              var after := Run(es + Alone(c, n) + [Attempt(c, false)] + [RestoreFlag(c)]);
              after == Some(World(false, Run(es).value.calls[c := GaveUp]))
  {
    var w := Run(es).value;
    if n < 3 {
      AloneTries(es, w, c, n);
      var v := World(true, w.calls[c := Trying(n)]);
      Extend(es + Alone(c, n), v, Attempt(c, true));
      assert Step(v, Attempt(c, true)).calls == w.calls[c := Acknowledged];
      if n == 2 {
        var u := World(true, w.calls[c := Restoring]);
        Extend(es + Alone(c, n), v, Attempt(c, false));
        assert Step(v, Attempt(c, false)).calls == u.calls;
        Extend(es + Alone(c, n) + [Attempt(c, false)], u, RestoreFlag(c));
        assert Step(u, RestoreFlag(c)).calls == w.calls[c := GaveUp];
      }
    }
  }
}
