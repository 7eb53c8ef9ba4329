/** `ingest_drawer_record` (`src/daemon.rs`): one hook message is admitted, gated, embedded and inserted, dropped or
    merged, over a store of drawers and vectors, with every model and database answer left open. All
    messages considered have records of one identity, and their attempts may follow each other in any order. */
module Ingest {
  import opened Prelude
  import opened IngestGates
  import opened IngestSpec

  datatype Result = Ok(id: Id) | Err
  datatype Flow = Go | Stop(result: Result)

  function FirstDecision(c: Config, m: Message): Option<Decision> {
    if !c.gatingEnabled then None
    else if m.tier1.Some? then m.tier1
    else if !c.tier2Enabled then Some(Accepted(0, Some("tier2_disabled")))
    else None
  }

  predicate DropsAtOnce(c: Config, m: Message) {
    var d := FirstDecision(c, m);
    d.Some? && DropsBeforeGate(c, d.value)
  }

  /** The two early gates decide as they should. */
  lemma FirstGate(c: Config, m: Message)
    ensures DropsAtOnce(c, m) <==> Tier1Ends(c, m)
    ensures FirstDecision(c, m).Some? <==> DecidedEarly(c, m)
    ensures GateRequired(c) <==> JudgeMandatory(c)
  {
    GateDrops(c, if m.tier1.Some? then m.tier1.value else Accepted(0, None));
  }

  lemma GateDrops(c: Config, d: Decision)
    ensures DropsBeforeGate(c, d) <==> EndsHere(c, d)
  {
    if d.Rejected? {
      SurvivingRejections(c, d);
    }
  }

  function Written(trace: seq<Event>): set<Id> {
    if trace == [] then {} else
      var last := trace[|trace| - 1];
      Written(trace[..|trace| - 1]) + (match last case Stored(id) => {id} case Merged(id) => {id} case _ => {})
  }

  lemma WrittenAppend(trace: seq<Event>, e: Event)
    ensures Written(trace + [e]) ==
            Written(trace) + (match e case Stored(id) => {id} case Merged(id) => {id} case _ => {})
  {
    assert (trace + [e])[..|trace|] == trace;
  }

  predicate LiveSame(rows: map<Id, Row>, i: Id) {
    i in rows && rows[i].live && rows[i].same
  }

  ghost predicate NoLiveSame(rows: map<Id, Row>) {
    forall i :: !LiveSame(rows, i)
  }

  /** A live row of the identity that has no vector. */
  predicate Bare(rows: map<Id, Row>, vectors: set<Id>, i: Id) {
    LiveSame(rows, i) && i !in vectors
  }

  ghost predicate NothingBare(rows: map<Id, Row>, vectors: set<Id>) {
    forall i :: !Bare(rows, vectors, i)
  }

  /** A bare row belongs to a message of `pending`, and no other row of the identity is live beside it. */
  ghost predicate Consistent(pending: set<nat>, rows: map<Id, Row>, vectors: set<Id>) {
    forall i :: Bare(rows, vectors, i) ==>
      rows[i].owner.Some? && rows[i].owner.value in pending && forall j :: LiveSame(rows, j) ==> j == i
  }

  /** No row of the identity is live beside a bare one. */
  ghost predicate BareAlone(rows: map<Id, Row>, vectors: set<Id>) {
    forall i, j :: Bare(rows, vectors, i) && LiveSame(rows, j) ==> j == i
  }

  // --- What an attempt leaves of a store ---

  /** Every row but the candidate is untouched unless merged into, and a merge counts once. An existing row is taken for
      the candidate if and only if one is live under the identity; otherwise the candidate's id is new. */
  ghost predicate Kept(start: map<Id, Row>, rows: map<Id, Row>, trace: seq<Event>, candidate: Id) {
    && (forall i :: i in start && i != candidate ==> i in rows && rows[i] == AfterMerge(start[i], Merged(i) in trace))
    && (forall i :: i in rows && i !in start ==> i == candidate)
    && (if candidate in start then LiveSame(start, candidate) else NoLiveSame(start))
  }

  /** While the candidate has no vector it keeps its identity and its admitted owner. */
  predicate CandidateKept(start: map<Id, Row>, rows: map<Id, Row>, vectors: set<Id>, candidate: Id, owner: nat) {
    candidate in rows && candidate !in vectors ==>
      rows[candidate].same && rows[candidate].owner == AdmittedRow(start, candidate, owner).owner
  }

  /** A message that gets past tier 1 deletes or embeds a candidate of its own. */
  predicate Releases(c: Config, m: Message, start: map<Id, Row>, i: Id) {
    !Tier1Ends(c, m) && (i in start ==> start[i].owner == Some(m.owner))
  }

  /** At an Ok return the candidate is bare exactly if it was, nothing wrote it, and it is not this message's to
      release. */
  predicate CandidateDone(c: Config, m: Message, start: map<Id, Row>, startVectors: set<Id>,
                          rows: map<Id, Row>, vectors: set<Id>, written: set<Id>, candidate: Id) {
    Bare(rows, vectors, candidate) <==>
      Bare(start, startVectors, candidate) && candidate !in written && !Releases(c, m, start, candidate)
  }

  /** The rows that are bare after an Ok return: those that were, less what was written and what was released. */
  ghost predicate BareExactly(c: Config, m: Message, start: map<Id, Row>, startVectors: set<Id>,
                              rows: map<Id, Row>, vectors: set<Id>, written: set<Id>, candidate: Id) {
    forall i :: Bare(rows, vectors, i) <==>
      Bare(start, startVectors, i) && i !in written && !(i == candidate && Releases(c, m, start, i))
  }

  lemma {:induction false} MergesAreWritten(trace: seq<Event>, i: Id)
    requires Merged(i) in trace
    ensures i in Written(trace)
  {
    if trace == [] {
    } else if trace[|trace| - 1] != Merged(i) {
      assert trace == trace[..|trace| - 1] + [trace[|trace| - 1]];
      MergesAreWritten(trace[..|trace| - 1], i);
    }
  }

  /** Other rows are bare exactly as before, unless written. */
  lemma OthersAreBareAsBefore(
    start: map<Id, Row>, startVectors: set<Id>, rows: map<Id, Row>, trace: seq<Event>, candidate: Id, i: Id)
    requires Kept(start, rows, trace, candidate) && i != candidate
    ensures Bare(rows, startVectors + Written(trace), i) <==> Bare(start, startVectors, i) && i !in Written(trace)
  {
    if Merged(i) in trace {
      MergesAreWritten(trace, i);
    }
  }

  lemma BareIsExact(c: Config, m: Message, start: map<Id, Row>, startVectors: set<Id>,
                    rows: map<Id, Row>, vectors: set<Id>, trace: seq<Event>, candidate: Id)
    requires Kept(start, rows, trace, candidate) && vectors == startVectors + Written(trace)
    requires CandidateDone(c, m, start, startVectors, rows, vectors, Written(trace), candidate)
    ensures BareExactly(c, m, start, startVectors, rows, vectors, Written(trace), candidate)
  {
    forall i | i != candidate
      ensures Bare(rows, vectors, i) <==> Bare(start, startVectors, i) && i !in Written(trace)
    {
      OthersAreBareAsBefore(start, startVectors, rows, trace, candidate, i);
    }
  }

  /** How the set of pending messages changes with one attempt. */
  function PendingAfter(c: Config, m: Message, pending: set<nat>, r: Result): set<nat> {
    if r.Ok? then pending - {m.owner} else if Tier1Ends(c, m) then pending else pending + {m.owner}
  }

  lemma LiveSameStays(start: map<Id, Row>, rows: map<Id, Row>, trace: seq<Event>, candidate: Id, j: Id)
    requires Kept(start, rows, trace, candidate) && LiveSame(rows, j) && j != candidate
    ensures LiveSame(start, j) && candidate in start
  {
    assert LiveSame(start, j);
  }

  /** What is bare after an attempt was bare before, under the same owner, or is the new candidate. */
  lemma BareComesFrom(start: map<Id, Row>, startVectors: set<Id>, rows: map<Id, Row>, trace: seq<Event>,
                      candidate: Id, owner: nat, i: Id)
    requires Kept(start, rows, trace, candidate)
    requires CandidateKept(start, rows, startVectors + Written(trace), candidate, owner)
    requires Bare(rows, startVectors + Written(trace), i)
    ensures if i in start then Bare(start, startVectors, i) && rows[i].owner == start[i].owner
            else i == candidate && rows[i].owner == Some(owner)
  {
    if i != candidate {
      OthersAreBareAsBefore(start, startVectors, rows, trace, candidate, i);
    }
  }

  /** Every attempt of every message keeps the store consistent. */
  lemma AttemptKeepsConsistent(
    c: Config, m: Message, pending: set<nat>, r: Result, start: map<Id, Row>, startVectors: set<Id>,
    rows: map<Id, Row>, vectors: set<Id>, trace: seq<Event>, candidate: Id)
    requires Consistent(pending, start, startVectors) && (Tier1Ends(c, m) ==> m.owner !in pending)
    requires Kept(start, rows, trace, candidate) && vectors == startVectors + Written(trace)
    requires CandidateKept(start, rows, vectors, candidate, m.owner)
    requires Tier1Ends(c, m) && candidate !in start ==> candidate !in rows
    requires r.Ok? ==> BareExactly(c, m, start, startVectors, rows, vectors, Written(trace), candidate)
    ensures Consistent(PendingAfter(c, m, pending, r), rows, vectors)
  {
    var after := PendingAfter(c, m, pending, r);
    forall i | Bare(rows, vectors, i)
      ensures rows[i].owner.Some? && rows[i].owner.value in after && forall j :: LiveSame(rows, j) ==> j == i
    {
      BareComesFrom(start, startVectors, rows, trace, candidate, m.owner, i);
      forall j | LiveSame(rows, j) ensures j == i {
        if j != candidate {
          LiveSameStays(start, rows, trace, candidate, j);
        }
      }
    }
  }

  // --- When nothing is left bare ---

  /** Each bare row is this message's to release, or to embed. */
  ghost predicate ClearsAll(c: Config, m: Message, rows: map<Id, Row>, vectors: set<Id>, a: Answers) {
    forall i :: Bare(rows, vectors, i) ==> Releases(c, m, rows, i) || Embeds(c, m, rows, a, i)
  }

  /** Exactly when an attempt that nothing hinders leaves nothing bare: each bare row it meets is its own to release, or
      it embeds it. A duplicate that is dropped, or merged elsewhere, leaves another message's bare row as it is. */
  lemma NothingBareExactly(
    c: Config, m: Message, a: Answers, start: map<Id, Row>, startVectors: set<Id>,
    rows: map<Id, Row>, vectors: set<Id>, written: set<Id>, candidate: Id)
    requires BareAlone(start, startVectors)
    requires if candidate in start then LiveSame(start, candidate) else NoLiveSame(start)
    requires BareExactly(c, m, start, startVectors, rows, vectors, written, candidate)
    requires candidate in startVectors || written == ExpectedWrites(c, m, start, a, candidate)
    ensures NothingBare(rows, vectors) <==> ClearsAll(c, m, start, startVectors, a)
  {
    forall i | Bare(start, startVectors, i)
      ensures i == candidate && (!Bare(rows, vectors, i) <==> Releases(c, m, start, i) || Embeds(c, m, start, a, i))
    {
      assert LiveSame(start, i) && LiveSame(start, candidate);
    }
  }

  lemma BareOutcome(
    c: Config, m: Message, a: Answers, start: map<Id, Row>, startVectors: set<Id>,
    rows: map<Id, Row>, vectors: set<Id>, trace: seq<Event>, candidate: Id)
    requires Kept(start, rows, trace, candidate) && vectors == startVectors + Written(trace)
    requires CandidateDone(c, m, start, startVectors, rows, vectors, Written(trace), candidate)
    requires candidate in startVectors || Written(trace) == ExpectedWrites(c, m, start, a, candidate)
    ensures BareExactly(c, m, start, startVectors, rows, vectors, Written(trace), candidate)
    ensures BareAlone(start, startVectors) ==> (NothingBare(rows, vectors) <==> ClearsAll(c, m, start, startVectors, a))
  {
    BareIsExact(c, m, start, startVectors, rows, vectors, trace, candidate);
    if BareAlone(start, startVectors) {
      NothingBareExactly(c, m, a, start, startVectors, rows, vectors, Written(trace), candidate);
    }
  }

  lemma {:induction false} IdsAreBounded(ids: set<Id>) returns (bound: nat)
    ensures forall i :: i in ids ==> i < bound
    decreases |ids|
  {
    if ids == {} {
      bound := 0;
    } else {
      var i :| i in ids;
      var rest := IdsAreBounded(ids - {i});
      bound := if i < rest then rest else i + 1;
      assert forall k :: k in ids ==> k == i || k in ids - {i};
    }
  }

  lemma {:induction false} NothingMergedYet(trace: seq<Event>)
    requires Written(trace) == {}
    ensures forall i :: Merged(i) !in trace
  {
    if trace == [] {
    } else {
      NothingMergedYet(trace[..|trace| - 1]);
      assert trace == trace[..|trace| - 1] + [trace[|trace| - 1]];
    }
  }

  lemma NothingHappened(required: bool, trace: seq<Event>)
    requires |trace| == 0
    ensures Monitor(required, trace) == Watch(0, false, false, true) && Written(trace) == {}
  {
  }

  /** The rows after the merge transaction. */
  function MergedRows(rows: map<Id, Row>, target: Id, candidate: Id, owner: nat): map<Id, Row>
    requires target in rows && candidate in rows
  {
    var updated := rows[target := AfterMerge(rows[target], true)];
    if candidate != target && rows[candidate].owner == Some(owner)
    then map i | i in updated && i != candidate :: updated[i]
    else updated
  }

  lemma MergeIsKept(start: map<Id, Row>, rows: map<Id, Row>, trace: seq<Event>, target: Id, candidate: Id, owner: nat)
    requires target in rows && candidate in rows && Kept(start, rows, trace, candidate) && Written(trace) == {}
    ensures Kept(start, MergedRows(rows, target, candidate, owner), trace + [Merged(target)], candidate)
  {
    NothingMergedYet(trace);
    var after, log := MergedRows(rows, target, candidate, owner), trace + [Merged(target)];
    forall i ensures Merged(i) in log <==> i == target {
      assert log[|trace|] == Merged(target);
    }
  }

  lemma StoreIsKept(start: map<Id, Row>, rows: map<Id, Row>, trace: seq<Event>, candidate: Id, row: Row)
    requires Kept(start, rows, trace, candidate) && candidate in rows
    ensures Kept(start, rows[candidate := row], trace + [Stored(candidate)], candidate)
  {
    var log := trace + [Stored(candidate)];
    forall i ensures Merged(i) in log <==> Merged(i) in trace {
      assert log[|trace|] == Stored(candidate);
    }
  }

  lemma StoreFacts(c: Config, m: Message, start: map<Id, Row>, startVectors: set<Id>, rows: map<Id, Row>, candidate: Id)
    requires LiveSame(rows, candidate) && rows[candidate] == AdmittedRow(start, candidate, m.owner)
    ensures var after, vectors := rows[candidate := rows[candidate].(owner := None)], startVectors + {candidate};
            && CandidateKept(start, after, vectors, candidate, m.owner)
            && CandidateDone(c, m, start, startVectors, after, vectors, {candidate}, candidate)
            && RowAt(after, candidate) == FinalRow(start, candidate, m.owner, false, {candidate})
  {
  }

  lemma MergeFacts(
    c: Config, m: Message, start: map<Id, Row>, startVectors: set<Id>, rows: map<Id, Row>, target: Id, candidate: Id)
    requires LiveSame(rows, candidate) && rows[candidate] == AdmittedRow(start, candidate, m.owner)
    requires target in rows && !Tier1Ends(c, m) && (candidate in start ==> LiveSame(start, candidate))
    ensures var after, vectors := MergedRows(rows, target, candidate, m.owner), startVectors + {target};
            && CandidateKept(start, after, vectors, candidate, m.owner)
            && CandidateDone(c, m, start, startVectors, after, vectors, {target}, candidate)
  {
  }

  /** The candidate after the merge transaction. */
  lemma MergeFate(start: map<Id, Row>, rows: map<Id, Row>, target: Id, candidate: Id, owner: nat)
    requires target in rows && candidate in rows && rows[candidate] == AdmittedRow(start, candidate, owner)
    ensures RowAt(MergedRows(rows, target, candidate, owner), candidate) ==
            FinalRow(start, candidate, owner, true, {target})
  {
  }

  lemma PlacedAlike(c: Config, m: Message, start: map<Id, Row>, rows: map<Id, Row>, a: Answers, candidate: Id)
    requires forall i :: i in start ==> i in rows && rows[i] == start[i]
    requires candidate in rows && (candidate !in start ==> rows[candidate].merges == 0)
    requires forall i :: i in rows && i !in start ==> i == candidate
    ensures PlaceOk(c, m, rows, a, candidate) <==> PlaceOk(c, m, start, a, candidate)
    ensures Placed(c, m, rows, a, candidate) == Placed(c, m, start, a, candidate)
    ensures PlaceTrace(c, m, rows, a, candidate) == PlaceTrace(c, m, start, a, candidate)
    ensures ReportedId(c, m, rows, a, candidate) == ReportedId(c, m, start, a, candidate)
  {
  }

  function Audited(audit: bool): seq<Event> {
    if audit then [NoveltyAudit] else []
  }

  /** What is left of the gates' events after the classifier's call. */
  function AfterCall(c: Config, m: Message, a: Answers, more: seq<Event>): seq<Event> {
    if ClassifierEnds(c, m, a) then [GatingAudit(true)] + more else AfterClassifier(c, m, a) + more
  }

  lemma Regroup<T>(x: seq<T>, y: seq<T>, z: seq<T>)
    ensures (x + y) + z == x + (y + z)
  {
  }

  /** How the gates' events are put together. */
  lemma GateParts(c: Config, m: Message, a: Answers, more: seq<Event>)
    ensures GateTrace(c, m, a) + more == ClassifierTrace(c, m) + AfterCall(c, m, a, more)
    ensures ClassifierEnds(c, m, a) ==> AfterCall(c, m, a, more)[1..] == more
  {
    Regroup(ClassifierTrace(c, m), if ClassifierEnds(c, m, a) then [GatingAudit(true)] else AfterClassifier(c, m, a),
            more);
  }

  lemma AfterClassifierParts(c: Config, m: Message, a: Answers, more: seq<Event>)
    ensures AfterClassifier(c, m, a) + more ==
            SecondTrace(c, m, a) + ((if LetThrough(c, m, a) then StorageTrace(c, m) else []) + more)
  {
    Regroup(SecondTrace(c, m, a), if LetThrough(c, m, a) then StorageTrace(c, m) else [], more);
  }

  function PayloadsAfter(payloads: set<nat>, owner: nat, written: bool): set<nat> {
    if written then payloads + {owner} else payloads
  }

  predicate LastIsMerge(trace: seq<Event>) {
    |trace| > 0 && trace[|trace| - 1].Merged?
  }

  class IngestStore {
    const c: Config
    var m: Message
    var rows: map<Id, Row>
    var vectors: set<Id>
    /** The messages whose raw payload is durable. */
    var payloads: set<nat>
    var candidate: Id
    var trace: seq<Event>
    ghost var start: map<Id, Row>
    ghost var startVectors: set<Id>
    /** The events still to come if nothing stops the attempt. */
    ghost var todo: seq<Event>
    ghost var expected: seq<Event>

    constructor (c: Config, rows: map<Id, Row>, vectors: set<Id>, payloads: set<nat>)
      ensures this.c == c && this.rows == rows && this.vectors == vectors && this.payloads == payloads
    {
      this.c, this.rows, this.vectors, this.payloads := c, rows, vectors, payloads;
      m, candidate, trace, start, startVectors := Message(0, None, false, false, false), 0, [], rows, vectors;
      todo, expected := [], [];
    }

    /** Always true between the steps of an attempt. */
    ghost predicate Sound()
      reads this
    {
      && Kept(start, rows, trace, candidate) && vectors == startVectors + Written(trace)
      && CandidateKept(start, rows, vectors, candidate, m.owner)
      && (Tier1Ends(c, m) && candidate !in start ==> candidate !in rows)
      && Watched().ok && trace + todo == expected
    }

    /** After admission: the candidate row and the raw payload are durable. */
    ghost predicate Admitted()
      reads this
    {
      && Sound() && LiveSame(rows, candidate) && m.owner in payloads && Written(trace) == {} && !Tier1Ends(c, m)
      && rows[candidate] == AdmittedRow(start, candidate, m.owner)
    }

    /** How an attempt may end. */
    ghost predicate Ended(r: Result)
      reads this
    {
      Sound() && (r.Ok? ==> Finished() && Written(trace) <= {r.id})
    }

    ghost predicate Finished()
      reads this
    {
      CandidateDone(c, m, start, startVectors, rows, vectors, Written(trace), candidate)
    }

    /** What has become of an admitted candidate. */
    ghost predicate Fate()
      reads this
    {
      RowAt(rows, candidate) == FinalRow(start, candidate, m.owner, LastIsMerge(trace), Written(trace))
    }

    function Watched(): Watch
      reads this
    {
      Monitor(JudgeMandatory(c), trace)
    }

    method Note(e: Event)
      requires !Writes(e) && |todo| > 0 && todo[0] == e && trace + todo == expected
      modifies this`trace, this`todo
      ensures trace == old(trace) + [e] && Written(trace) == old(Written(trace))
      ensures todo == old(todo)[1..] && trace + todo == expected
      ensures Watched() == Observe(JudgeMandatory(c), old(Watched()), e)
      ensures old(Kept(start, rows, trace, candidate)) ==> Kept(start, rows, trace, candidate)
    {
      MonitorAppend(JudgeMandatory(c), trace, e);
      WrittenAppend(trace, e);
      assert trace + todo == trace + [e] + todo[1..];
      trace, todo := trace + [e], todo[1..];
    }

    predicate Durable()
      reads this
    {
      candidate in rows && rows[candidate].live && m.owner in payloads
    }

    /** `resolve_ingest_drawer_id`: a live row of the identity, or an id no row uses. */
    method Resolve() returns (found: bool)
      modifies this`candidate
      ensures found <==> candidate in rows
      ensures if found then LiveSame(rows, candidate) else NoLiveSame(rows)
    {
      var live := set i | i in rows && LiveSame(rows, i);
      if live != {} {
        var id :| id in live;
        candidate := id;
        return true;
      }
      ghost var bound := IdsAreBounded(rows.Keys);
      assert bound !in rows;
      var id :| id !in rows;
      candidate := id;
      forall i ensures !LiveSame(rows, i) {
        assert i !in live;
      }
      return false;
    }

    /** `soft_delete_model_rejected_admission`: only a live row this message owns. */
    method SoftDelete(ok: bool) returns (done: bool)
      requires Admitted()
      modifies this`rows
      ensures Sound() && done == ok
      ensures done ==> Finished() && Fate()
    {
      if !ok {
        return false;
      }
      if rows[candidate].owner == Some(m.owner) && rows[candidate].live {
        rows := rows[candidate := rows[candidate].(live := false)];
      }
      return true;
    }

    /** A rejected or dropped admission: done exactly when the deletion went through. */
    method Discard(a: Answers, id: Id) returns (r: Result)
      requires Admitted()
      modifies this`rows
      ensures Ended(r) && r == (if a.softDelete then Ok(id) else Err) && (a.softDelete ==> Fate())
    {
      var done := SoftDelete(a.softDelete);
      return if done then Ok(id) else Err;
    }

    ghost predicate Cleared()
      reads this
    {
      !Watched().rejected && (JudgeMandatory(c) ==> Watched().kept)
    }

    /** The one write of an attempt: the rows it leaves, the id that gets a vector, and its event. */
    method Commit(after: map<Id, Row>, id: Id, e: Event)
      requires Admitted() && Cleared() && (e == Stored(id) || e == Merged(id)) && todo == [e]
      requires Kept(start, after, trace + [e], candidate)
      requires CandidateKept(start, after, startVectors + {id}, candidate, m.owner)
      requires CandidateDone(c, m, start, startVectors, after, startVectors + {id}, {id}, candidate)
      requires RowAt(after, candidate) == FinalRow(start, candidate, m.owner, e.Merged?, {id})
      modifies this`rows, this`vectors, this`trace, this`todo
      ensures Sound() && |todo| == 0 && Finished() && Fate() && Written(trace) == {id}
    {
      MonitorAppend(JudgeMandatory(c), trace, e);
      WrittenAppend(trace, e);
      assert vectors + {id} == startVectors + {id};
      rows := after;
      vectors := vectors + {id};
      trace, todo := trace + [e], [];
    }

    /** `insert_drawer_with_vector`: the row is already there, so only the vector and the finished ownership are
        written. */
    method StoreVector(ok: bool) returns (done: bool)
      requires Admitted() && Cleared() && todo == [Stored(candidate)]
      modifies this`rows, this`vectors, this`trace, this`todo
      ensures Sound() && done == ok
      ensures done ==> |todo| == 0 && Finished() && Fate() && Written(trace) == {candidate}
    {
      if !ok {
        return false;
      }
      StoreFacts(c, m, start, startVectors, rows, candidate);
      StoreIsKept(start, rows, trace, candidate, rows[candidate].(owner := None));
      Commit(rows[candidate := rows[candidate].(owner := None)], candidate, Stored(candidate));
      return true;
    }

    /** Insert, then persist the payload again; a judgement would be queued only for a decision that asks for one. */
    method StoreAndFinish(decision: Option<Decision>, a: Answers) returns (r: Result)
      requires Admitted() && Cleared() && MayStore(c, decision) && todo == [Stored(candidate)]
      modifies this`rows, this`vectors, this`trace, this`todo
      ensures Ended(r)
      ensures r.Ok? ==> r == Ok(candidate) && |todo| == 0 && Fate() && Written(trace) == {candidate}
      ensures r.Ok? <==> StoreOk(a)
    {
      var stored := StoreVector(a.store);
      if !stored || !a.payloadAgain {
        return Err;
      }
      if RoutesToJudge(c, decision) {
        // The enqueue step: no decision that may be stored leads here.
        NeverQueuedAfterGate(c, decision);
        assert false;
      }
      return Ok(candidate);
    }

    /** The merge transaction: the target, if its merge count is still the one read, gets the merged content and vector,
        and the candidate row goes if it is another one that this message owns. */
    method MergeInto(target: Id, expectedMerges: nat, ok: bool) returns (done: bool)
      requires Admitted() && Cleared() && todo == [Merged(target)]
      modifies this`rows, this`vectors, this`trace, this`todo
      ensures Sound()
      ensures done <==>
                && ok && target in old(rows) && old(rows)[target].live
                && old(rows)[target].merges == expectedMerges
      ensures done ==> |todo| == 0 && Finished() && Fate() && Written(trace) == {target}
    {
      if !ok || target !in rows || !rows[target].live || rows[target].merges != expectedMerges {
        return false;
      }
      MergeIsKept(start, rows, trace, target, candidate, m.owner);
      MergeFacts(c, m, start, startVectors, rows, target, candidate);
      MergeFate(start, rows, target, candidate, m.owner);
      Commit(MergedRows(rows, target, candidate, m.owner), target, Merged(target));
      return true;
    }

    method AuditThenStore(audit: bool, decision: Option<Decision>, a: Answers) returns (r: Result)
      requires Admitted() && Cleared() && MayStore(c, decision) && todo == Audited(audit) + [Stored(candidate)]
      modifies this`rows, this`vectors, this`trace, this`todo
      ensures Ended(r)
      ensures r.Ok? ==> r == Ok(candidate) && |todo| == 0 && Fate() && Written(trace) == {candidate}
      ensures r.Ok? <==> (audit ==> a.noveltyAudit) && StoreOk(a)
    {
      if audit {
        if !a.noveltyAudit {
          return Err;
        }
        Note(NoveltyAudit);
      }
      r := StoreAndFinish(decision, a);
    }

    method Merge(near: Option<Id>, decision: Option<Decision>, a: Answers) returns (r: Result)
      requires Admitted() && Cleared() && MayStore(c, decision) && a.novelty.Some? && near == a.novelty.value.near
      requires todo == MergeTrace(c, rows, a, candidate)
      modifies this`rows, this`vectors, this`trace, this`todo
      ensures Ended(r)
      ensures r.Ok? ==> |todo| == 0 && Fate() && Written(trace) == Merges(c, old(rows), a, candidate)
      ensures r.Ok? ==> r.id == MergedId(c, old(rows), a, candidate)
      ensures r.Ok? <==> MergeOk(c, old(rows), a, candidate)
    {
      var target := if near.Some? then near.value else candidate;
      if target != candidate && !a.lock {
        return Err;
      }
      if !a.mergeState || target !in rows || !rows[target].live {
        return Err;
      }
      var merges := rows[target].merges;
      if merges >= c.maxMerges || a.tooLong {
        r := AuditThenStore(true, decision, a);
        return;
      }
      r := MergeUncapped(target, merges, decision, a);
    }

    method MergeUncapped(target: Id, merges: nat, decision: Option<Decision>, a: Answers) returns (r: Result)
      requires Admitted() && Cleared() && MayStore(c, decision)
      requires target in rows && rows[target].live && rows[target].merges == merges
      requires todo == [Embedded(ForMerge, true)] +
                       if a.mergeEmbed then [Merged(target)] else [NoveltyAudit, Stored(candidate)]
      modifies this`rows, this`vectors, this`trace, this`todo
      ensures Ended(r)
      ensures r.Ok? ==> |todo| == 0 && Fate() && Written(trace) == {if a.mergeEmbed then target else candidate}
      ensures r.Ok? ==> r.id == if a.mergeEmbed then target else candidate
      ensures r.Ok? <==> if a.mergeEmbed then a.merge && a.payloadAgain else a.noveltyAudit && StoreOk(a)
    {
      Note(Embedded(ForMerge, Durable()));
      if !a.mergeEmbed {
        r := AuditThenStore(true, decision, a);
        return;
      }
      var merged := MergeInto(target, merges, a.merge);
      if !merged || !a.payloadAgain {
        return Err;
      }
      return Ok(target);
    }

    method DropNovelty(novelty: Novelty, a: Answers) returns (r: Result)
      requires Admitted() && todo == Audited(novelty.shouldAudit)
      modifies this`rows, this`trace, this`todo
      ensures Ended(r) && Written(trace) == {}
      ensures r.Ok? ==> |todo| == 0 && Fate() && r.id == if novelty.near.Some? then novelty.near.value else candidate
      ensures r.Ok? <==> (novelty.shouldAudit ==> a.noveltyAudit) && a.softDelete
    {
      if novelty.shouldAudit {
        if !a.noveltyAudit {
          return Err;
        }
        Note(NoveltyAudit);
      }
      r := Discard(a, if novelty.near.Some? then novelty.near.value else candidate);
    }

    /** From the vector on: insert, drop or merge. */
    method Place(decision: Option<Decision>, a: Answers) returns (r: Result)
      requires Admitted() && Cleared() && MayStore(c, decision) && todo == PlaceTrace(c, m, rows, a, candidate)
      modifies this`rows, this`vectors, this`trace, this`todo
      ensures Ended(r)
      ensures r.Ok? ==> |todo| == 0 && Fate() && Written(trace) == Placed(c, m, old(rows), a, candidate)
      ensures r.Ok? && LetThrough(c, m, a) ==> r.id == ReportedId(c, m, old(rows), a, candidate)
      ensures r.Ok? <==> PlaceOk(c, m, old(rows), a, candidate)
    {
      if m.bypassNovelty {
        r := StoreAndFinish(decision, a);
        return;
      }
      if a.novelty.None? {
        return Err;
      }
      var novelty := a.novelty.value;
      match novelty.action
      case InsertNew => r := AuditThenStore(novelty.shouldAudit, decision, a);
      case DropNear => r := DropNovelty(novelty, a);
      case MergeNear => r := Merge(novelty.near, decision, a);
    }

    /** The classifier gate, where no earlier gate decided. */
    method Classify(first: Option<Decision>, a: Answers, ghost rest: seq<Event>)
      returns (flow: Flow, decision: Option<Decision>, embedded: bool)
      requires Admitted() && Watched() == Watch(0, false, false, true)
      requires (first.Some? <==> DecidedEarly(c, m)) && (first.Some? ==> !DropsBeforeGate(c, first.value))
      requires todo == ClassifierTrace(c, m) + rest
      requires ClassifierEnds(c, m, a) ==> |rest| > 0 && rest[0] == GatingAudit(true)
      modifies this`rows, this`trace, this`todo
      ensures Written(trace) == {} && (flow.Stop? ==> Ended(flow.result))
      ensures flow.Stop? && flow.result.Ok? ==>
                flow.result.id == candidate && Fate() && ClassifierEnds(c, m, a) && todo == rest[1..]
      ensures flow.Go? ==> Admitted() && Watched() == Watch(0, false, false, true) && rows == old(rows) && todo == rest
      ensures flow.Go? ==> embedded == ClassifierRuns(c, m)
      ensures flow.Go? ==> (decision.Some? <==> DecidedEarly(c, m) || embedded)
      ensures flow.Go? && decision.Some? ==> !DropsBeforeGate(c, decision.value)
      ensures flow.Go? <==> !ClassifierEnds(c, m, a) && (ClassifierRuns(c, m) ==> a.classifyEmbed)
      ensures flow.Stop? ==> (flow.result.Ok? <==> GatesOk(c, m, a))
    {
      decision, embedded := first, false;
      if decision.Some? || !m.hasClassifier {
        return Go, decision, embedded;
      }
      Note(Embedded(ForClassifier, Durable()));
      if !a.classifyEmbed {
        return Stop(Err), decision, embedded;
      }
      GateDrops(c, a.classified);
      if DropsBeforeGate(c, a.classified) {
        flow := RejectClassified(a);
        return flow, decision, embedded;
      }
      return Go, Some(a.classified), true;
    }

    method RejectClassified(a: Answers) returns (flow: Flow)
      requires Admitted() && Watched() == Watch(0, false, false, true) && |todo| > 0 && todo[0] == GatingAudit(true)
      modifies this`rows, this`trace, this`todo
      ensures Written(trace) == {} && flow.Stop? && Ended(flow.result)
      ensures flow.result.Ok? ==> flow.result.id == candidate && Fate() && todo == old(todo)[1..]
      ensures flow.result.Ok? <==> a.classifyAudit && a.softDelete
    {
      if !a.classifyAudit {
        return Stop(Err);
      }
      Note(GatingAudit(true));
      var r := Discard(a, candidate);
      return Stop(r);
    }

    /** The synchronous LLM gate, where it is required. A terminal failure of the judge releases the admission. */
    method Judge(classified: Option<Decision>, a: Answers, ghost more: seq<Event>)
      returns (flow: Flow, decision: Option<Decision>)
      requires Admitted() && Watched() == Watch(0, false, false, true) && GateRequired(c) && JudgeMandatory(c)
      requires todo == JudgeTrace(m, a) + more
      modifies this`rows, this`trace, this`todo
      ensures Written(trace) == {} && (flow.Stop? ==> Ended(flow.result))
      ensures flow.Stop? && flow.result.Ok? ==>
                flow.result.id == candidate && Fate() && todo == more && !a.verdict.Keep?
      ensures flow.Go? ==> Admitted() && Cleared() && MayStore(c, decision) && rows == old(rows) && todo == more
      ensures flow.Go? <==> m.hasJudge && a.verdict.Keep? && a.judgeAudit && a.verdictRow
      ensures flow.Stop? ==> (flow.result.Ok? <==> TurnedAway(c, m, a))
      ensures m.hasJudge && a.verdict.TerminalFailure? && a.softDelete ==> flow == Stop(Err) && Fate()
    {
      decision := classified;
      if !m.hasJudge {
        return Stop(Err), decision;
      }
      Note(Judged(a.verdict, Durable()));
      if a.verdict.TerminalFailure? {
        var _ := Discard(a, candidate);
        return Stop(Err), decision;
      }
      if a.verdict.RetryableFailure? {
        return Stop(Err), decision;
      }
      flow := Sentence(a, more);
      return flow, Some(Accepted(0, Some("llm_keep")));
    }

    /** The judge answered: audit and verdict row, and a rejected admission is released. */
    method Sentence(a: Answers, ghost more: seq<Event>) returns (flow: Flow)
      requires Admitted() && Watched() == Watch(0, false, a.verdict.Keep?, true)
      requires (a.verdict.Keep? || a.verdict.Reject?) && todo == [GatingAudit(a.verdict.Reject?)] + more
      modifies this`rows, this`trace, this`todo
      ensures Written(trace) == {} && (flow.Stop? ==> Ended(flow.result))
      ensures flow.Stop? && flow.result.Ok? ==>
                flow.result.id == candidate && Fate() && todo == more && !a.verdict.Keep?
      ensures flow.Go? ==> Admitted() && Watched() == Watch(1, false, true, true) && rows == old(rows) && todo == more
      ensures flow.Go? <==> a.verdict.Keep? && a.judgeAudit && a.verdictRow
      ensures flow.Stop? ==> (flow.result.Ok? <==> a.verdict.Reject? && a.judgeAudit && a.verdictRow && a.softDelete)
    {
      if !a.judgeAudit {
        return Stop(Err);
      }
      Note(GatingAudit(a.verdict.Reject?));
      if !a.verdictRow {
        return Stop(Err);
      }
      if a.verdict.Keep? {
        return Go;
      }
      var r := Discard(a, candidate);
      return Stop(r);
    }

    /** Without the LLM gate, the earlier decision is what is audited. */
    method AuditPlainly(decision: Option<Decision>, a: Answers, ghost more: seq<Event>) returns (flow: Flow)
      requires Admitted() && Watched() == Watch(0, false, false, true) && !GateRequired(c) && !JudgeMandatory(c)
      requires decision.Some? <==> DecidedEarly(c, m) || ClassifierRuns(c, m)
      requires decision.Some? ==> !DropsBeforeGate(c, decision.value)
      requires todo == PlainTrace(c, m) + more
      modifies this`trace, this`todo
      ensures Written(trace) == {} && (flow.Stop? ==> flow == Stop(Err) && Sound())
      ensures flow.Go? ==> Admitted() && Cleared() && MayStore(c, decision) && todo == more
      ensures flow.Go? <==> (decision.Some? ==> a.plainAudit)
    {
      if decision.None? {
        return Go;
      }
      if decision.value.Rejected? {
        SurvivingRejections(c, decision.value);
        assert false;
      }
      if !a.plainAudit {
        return Stop(Err);
      }
      Note(GatingAudit(decision.value.Rejected?));
      return Go;
    }

    /** The state right after the identity was resolved. */
    ghost predicate Fresh()
      reads this
    {
      Sound() && Written(trace) == {} && Watched() == Watch(0, false, false, true) && rows == start
    }

    /** `persist_before_model_work`: the raw payload, then the row under this message's ownership. */
    method Persist(a: Answers) returns (ok: bool)
      requires Fresh() && !Tier1Ends(c, m)
      modifies this`rows, this`payloads
      ensures Sound() && (ok <==> a.payload && a.admit) && (ok ==> Admitted()) && Watched() == old(Watched())
      ensures ok ==> candidate in rows && rows[candidate].live && m.owner in payloads
      ensures payloads == PayloadsAfter(old(payloads), m.owner, a.payload)
      ensures forall i :: i in start ==> i in rows && rows[i] == start[i]
    {
      if !a.payload {
        return false;
      }
      payloads := payloads + {m.owner};
      if !a.admit {
        return false;
      }
      if !(candidate in rows && rows[candidate].live) {
        rows := rows[candidate := Row(true, Some(m.owner), true, 0)];
      }
      return true;
    }

    method JudgeOrAudit(earlier: Option<Decision>, a: Answers, ghost more: seq<Event>)
      returns (flow: Flow, decision: Option<Decision>)
      requires Admitted() && Watched() == Watch(0, false, false, true)
      requires earlier.Some? <==> DecidedEarly(c, m) || ClassifierRuns(c, m)
      requires earlier.Some? ==> !DropsBeforeGate(c, earlier.value)
      requires todo == SecondTrace(c, m, a) + more
      modifies this`rows, this`trace, this`todo
      ensures Written(trace) == {} && (flow.Stop? ==> Ended(flow.result))
      ensures flow.Stop? && flow.result.Ok? ==>
                flow.result.id == candidate && Fate() && todo == more && JudgeMandatory(c) && !a.verdict.Keep?
      ensures flow.Go? ==> Admitted() && Cleared() && MayStore(c, decision) && rows == old(rows) && todo == more
      ensures flow.Go? <==> GoesOn(c, m, a)
      ensures flow.Stop? ==> (flow.result.Ok? <==> TurnedAway(c, m, a))
      ensures JudgeMandatory(c) && m.hasJudge && a.verdict.TerminalFailure? && a.softDelete ==>
                flow == Stop(Err) && Fate()
    {
      FirstGate(c, m);
      decision := earlier;
      if GateRequired(c) {
        flow, decision := Judge(earlier, a, more);
      } else {
        flow := AuditPlainly(earlier, a, more);
      }
    }

    /** From the classifier on: the last gate, and the vector if there is none yet. */
    method JudgeAndEmbed(earlier: Option<Decision>, embedded: bool, a: Answers, ghost more: seq<Event>)
      returns (flow: Flow, decision: Option<Decision>)
      requires Admitted() && Watched() == Watch(0, false, false, true)
      requires !ClassifierEnds(c, m, a) && embedded == ClassifierRuns(c, m) && (embedded ==> a.classifyEmbed)
      requires earlier.Some? <==> DecidedEarly(c, m) || embedded
      requires earlier.Some? ==> !DropsBeforeGate(c, earlier.value)
      requires todo == AfterClassifier(c, m, a) + more
      modifies this`rows, this`trace, this`todo
      ensures Written(trace) == {} && (flow.Stop? ==> Ended(flow.result))
      ensures flow.Stop? && flow.result.Ok? ==>
                flow.result.id == candidate && Fate() && todo == more && !LetThrough(c, m, a)
      ensures flow.Go? ==> Admitted() && Cleared() && MayStore(c, decision) && rows == old(rows) && todo == more
      ensures flow.Go? ==> LetThrough(c, m, a)
      ensures flow.Go? ==> GatesOk(c, m, a)
      ensures flow.Stop? ==> (flow.result.Ok? <==> GatesOk(c, m, a))
      ensures JudgeFailsForGood(c, m, a) ==> flow == Stop(Err) && Fate()
    {
      AfterClassifierParts(c, m, a, more);
      flow, decision := JudgeOrAudit(earlier, a, (if LetThrough(c, m, a) then StorageTrace(c, m) else []) + more);
      if flow.Go? && !embedded {
        Note(Embedded(ForStorage, Durable()));
        if !a.embed {
          flow := Stop(Err);
        }
      }
    }

    /** Everything between admission and placement. */
    method Gate(first: Option<Decision>, a: Answers, ghost more: seq<Event>)
      returns (flow: Flow, decision: Option<Decision>)
      requires Admitted() && Watched() == Watch(0, false, false, true)
      requires (first.Some? <==> DecidedEarly(c, m)) && (first.Some? ==> !DropsBeforeGate(c, first.value))
      requires todo == GateTrace(c, m, a) + more
      modifies this`rows, this`trace, this`todo
      ensures Written(trace) == {} && (flow.Stop? ==> Ended(flow.result))
      ensures flow.Stop? && flow.result.Ok? ==>
                flow.result.id == candidate && Fate() && todo == more && !LetThrough(c, m, a)
      ensures flow.Go? ==> Admitted() && Cleared() && MayStore(c, decision) && rows == old(rows) && todo == more
      ensures flow.Go? ==> LetThrough(c, m, a)
      ensures flow.Go? ==> GatesOk(c, m, a)
      ensures flow.Stop? ==> (flow.result.Ok? <==> GatesOk(c, m, a))
      ensures JudgeFailsForGood(c, m, a) ==> flow == Stop(Err) && Fate()
    {
      GateParts(c, m, a, more);
      var embedded: bool;
      flow, decision, embedded := Classify(first, a, AfterCall(c, m, a, more));
      if flow.Go? {
        flow, decision := JudgeAndEmbed(decision, embedded, a, more);
      }
    }

    /** The early returns, before anything is written. */
    method Enter(found: bool, retry: nat, a: Answers) returns (flow: Flow)
      requires Fresh() && (found <==> candidate in rows)
      requires Tier1Ends(c, m) ==> todo == [GatingAudit(true)]
      modifies this`trace, this`todo
      ensures flow.Stop? ==> Ended(flow.result) && Written(trace) == {}
      ensures flow.Stop? && flow.result.Ok? ==> flow.result.id == candidate
      ensures flow.Stop? && flow.result.Ok? && !ReturnsEarly(retry, rows, vectors, candidate) ==>
                |todo| == 0 && Tier1Ends(c, m)
      ensures flow.Go? ==> Fresh() && todo == old(todo)
      ensures a.resolve && !ReturnsEarly(retry, rows, vectors, candidate) && !Tier1Ends(c, m) <==> flow.Go?
      ensures !Tier1Ends(c, m) ==> trace == old(trace)
      ensures flow.Stop? ==>
                (flow.result.Ok? <==> a.resolve && (ReturnsEarly(retry, rows, vectors, candidate) || a.dropAudit))
    {
      FirstGate(c, m);
      if !a.resolve {
        return Stop(Err);
      }
      if found && retry == 0 && candidate in vectors {
        return Stop(Ok(candidate));
      }
      if !DropsAtOnce(c, m) {
        return Go;
      }
      if !a.dropAudit {
        return Stop(Err);
      }
      Note(GatingAudit(true));
      return Stop(Ok(candidate));
    }

    /** An attempt that gets past the early return: it has done everything that was to do, and its candidate has met the
        end it should. */
    ghost predicate Done(a: Answers)
      reads this
    {
      && |todo| == 0 && Written(trace) == ExpectedWrites(c, m, start, a, candidate)
      && (if Tier1Ends(c, m) then rows == start else Fate())
    }

    /** Admission and the gates. */
    method Admit(a: Answers) returns (flow: Flow, decision: Option<Decision>)
      requires Fresh() && !Tier1Ends(c, m) && todo == ExpectedTrace(c, m, start, a, candidate)
      modifies this`rows, this`trace, this`payloads, this`todo
      ensures Written(trace) == {} && (flow.Stop? ==> Ended(flow.result))
      ensures payloads == PayloadsAfter(old(payloads), m.owner, a.payload)
      ensures !(a.payload && a.admit) ==> trace == old(trace) && flow.Stop?
      ensures flow.Stop? && flow.result.Ok? ==>
                flow.result.id == candidate && Fate() && |todo| == 0 && !LetThrough(c, m, a)
      ensures flow.Go? ==> Admitted() && Cleared() && MayStore(c, decision) && LetThrough(c, m, a)
      ensures flow.Go? ==> todo == PlaceTrace(c, m, rows, a, candidate)
      ensures flow.Go? ==> Placed(c, m, rows, a, candidate) == Placed(c, m, start, a, candidate)
      ensures flow.Go? ==> ReportedId(c, m, rows, a, candidate) == ReportedId(c, m, start, a, candidate)
      ensures flow.Go? ==> a.payload && a.admit && GatesOk(c, m, a)
      ensures flow.Go? ==> (PlaceOk(c, m, rows, a, candidate) <==> PlaceOk(c, m, start, a, candidate))
      ensures flow.Stop? ==> (flow.result.Ok? <==> a.payload && a.admit && GatesOk(c, m, a))
      ensures a.payload && a.admit && JudgeFailsForGood(c, m, a) ==> flow == Stop(Err) && Fate()
    {
      var ok := Persist(a);
      if !ok {
        return Stop(Err), None;
      }
      FirstGate(c, m);
      PlacedAlike(c, m, start, rows, a, candidate);
      ghost var more := if LetThrough(c, m, a) then PlaceTrace(c, m, rows, a, candidate) else [];
      flow, decision := Gate(FirstDecision(c, m), a, more);
    }

    /** From admission to the end. */
    method AttemptAdmitted(a: Answers) returns (r: Result)
      requires Fresh() && !Tier1Ends(c, m) && todo == ExpectedTrace(c, m, start, a, candidate)
      modifies this`rows, this`vectors, this`trace, this`payloads, this`todo
      ensures Ended(r)
      ensures payloads == PayloadsAfter(old(payloads), m.owner, a.payload)
      ensures !(a.payload && a.admit) ==> trace == old(trace)
      ensures r.Ok? ==> Done(a) && r.id == ReportedId(c, m, start, a, candidate)
      ensures r.Ok? <==> AdmittedOk(c, m, start, a, candidate)
      ensures Written(trace) != {} ==> a.payload && a.admit && GatesOk(c, m, a) && LetThrough(c, m, a)
      ensures a.payload && a.admit && JudgeFailsForGood(c, m, a) ==> r == Err && Fate() && Written(trace) == {}
    {
      var flow, decision := Admit(a);
      if flow.Stop? {
        return flow.result;
      }
      r := Place(decision, a);
    }

    method Attempt(found: bool, retry: nat, a: Answers) returns (r: Result)
      requires Fresh() && (found <==> candidate in rows) && todo == ExpectedTrace(c, m, start, a, candidate)
      modifies this`rows, this`vectors, this`trace, this`payloads, this`todo
      ensures Ended(r)
      ensures payloads == PayloadsAfter(old(payloads), m.owner, Enters(retry, a) && a.payload)
      ensures !Tier1Ends(c, m) && !(Enters(retry, a) && a.payload && a.admit) ==> trace == old(trace)
      ensures Tier1Ends(c, m) || ReturnsEarly(retry, start, startVectors, candidate) ==>
                rows == start && Written(trace) == {}
      ensures r.Ok? && !ReturnsEarly(retry, start, startVectors, candidate) ==> Done(a)
      ensures r.Ok? ==> Reports(retry, a, r.id)
      ensures r.Ok? <==> Succeeds(c, m, start, startVectors, retry, a, candidate)
      ensures Written(trace) != {} ==> a.payload && a.admit && GatesOk(c, m, a) && LetThrough(c, m, a)
      ensures TerminalAt(retry, a) ==> r == Err && Fate() && Written(trace) == {}
    {
      var flow := Enter(found, retry, a);
      if flow.Stop? {
        return flow.result;
      }
      r := AttemptAdmitted(a);
    }

    /** The attempt gets as far as admission. */
    ghost predicate Enters(retry: nat, a: Answers)
      reads this
    {
      a.resolve && !Tier1Ends(c, m) && !ReturnsEarly(retry, start, startVectors, candidate)
    }

    ghost predicate Reports(retry: nat, a: Answers, id: Id)
      reads this
    {
      id == if ReturnsEarly(retry, start, startVectors, candidate) then candidate else ReportedId(c, m, start, a,
        candidate)
    }

    /** The attempt reaches the judge, and the judge fails for good. */
    ghost predicate TerminalAt(retry: nat, a: Answers)
      reads this
    {
      && ReachesJudge(c, m, a) && !ReturnsEarly(retry, start, startVectors, candidate)
      && a.verdict.TerminalFailure? && a.softDelete
    }

    method Begin(message: Message, a: Answers) returns (found: bool)
      modifies this
      ensures m == message && start == old(rows) && startVectors == old(vectors) && vectors == old(vectors)
      ensures Fresh() && (found <==> candidate in rows)
      ensures todo == expected == ExpectedTrace(c, m, start, a, candidate) && |trace| == 0 && payloads == old(payloads)
    {
      m, trace, start, startVectors := message, Clear(trace), rows, vectors;
      NothingHappened(JudgeMandatory(c), trace);
      found := Resolve();
      todo := ExpectedTrace(c, m, rows, a, candidate);
      expected := todo;
      assert trace + todo == expected;
    }

    /** The attempt in the terms of the phases. */
    method Once(message: Message, retry: nat, a: Answers) returns (r: Result)
      modifies this
      ensures m == message && start == old(rows) && startVectors == old(vectors)
      ensures Ended(r) && TraceSafe(JudgeMandatory(c), trace) && expected == ExpectedTrace(c, m, start, a, candidate)
      ensures payloads == PayloadsAfter(old(payloads), m.owner, Enters(retry, a) && a.payload)
      ensures !Tier1Ends(c, m) && !(Enters(retry, a) && a.payload && a.admit) ==> |trace| == 0
      ensures Tier1Ends(c, m) || ReturnsEarly(retry, start, startVectors, candidate) ==>
                rows == start && Written(trace) == {}
      ensures r.Ok? && !ReturnsEarly(retry, start, startVectors, candidate) ==> Done(a)
      ensures r.Ok? ==> Reports(retry, a, r.id)
      ensures r.Ok? <==> Succeeds(c, m, start, startVectors, retry, a, candidate)
      ensures Written(trace) != {} ==> a.payload && a.admit && GatesOk(c, m, a) && LetThrough(c, m, a)
      ensures TerminalAt(retry, a) ==> r == Err && Fate() && Written(trace) == {}
    {
      var found := Begin(message, a);
      r := Attempt(found, retry, a);
      MonitorSound(JudgeMandatory(c), trace);
    }

    /** One attempt at one message, on any store whatever. Whatever the answers: it goes through the expected events in
        order and stops among them only if something fails; nothing happens to an admitted message before row and
        payload are durable, there is at most one gating audit, nothing rejected or, where the judge is mandatory,
        unjudged is written; and at an Ok return the rows without a vector are exactly those that were, less what was
        written and less a candidate of this message's own. An attempt that ends Ok past the early return has gone
        through all its events, written exactly what it should, and left its candidate as it should; one that nothing
        hinders ends Ok; and a judge that fails for good releases the admission. */
    method Ingest(message: Message, retry: nat, a: Answers) returns (r: Result)
      modifies this
      ensures m == message && TraceSafe(JudgeMandatory(c), trace)
      ensures payloads == PayloadsAfter(old(payloads), message.owner,
                                        && a.resolve && a.payload && !Tier1Ends(c, message)
                                        && !ReturnsEarly(retry, old(rows), old(vectors), candidate))
      ensures |trace| > 0 && !Tier1Ends(c, message) ==> a.admit && message.owner in payloads
      ensures trace <= ExpectedTrace(c, message, old(rows), a, candidate)
      ensures Kept(old(rows), rows, trace, candidate) && vectors == old(vectors) + Written(trace)
      ensures CandidateKept(old(rows), rows, vectors, candidate, message.owner)
      ensures Tier1Ends(c, message) || ReturnsEarly(retry, old(rows), old(vectors), candidate) ==>
                rows == old(rows) && vectors == old(vectors)
      ensures r.Ok? ==> r.id == if ReturnsEarly(retry, old(rows), old(vectors), candidate) then candidate
                                else ReportedId(c, message, old(rows), a, candidate)
      ensures r.Ok? ==> BareExactly(c, message, old(rows), old(vectors), rows, vectors, Written(trace), candidate)
      ensures r.Ok? && !ReturnsEarly(retry, old(rows), old(vectors), candidate) ==>
                && trace == ExpectedTrace(c, message, old(rows), a, candidate)
                && Written(trace) == ExpectedWrites(c, message, old(rows), a, candidate)
                && (!Tier1Ends(c, message) ==>
                      RowAt(rows, candidate) ==
                      FinalRow(old(rows), candidate, message.owner, LastIsMerge(trace), Written(trace)))
      ensures r.Ok? <==> Succeeds(c, message, old(rows), old(vectors), retry, a, candidate)
      ensures Unhindered(c, message, old(rows), a) ==> r.Ok?
      ensures Written(trace) != {} ==> a.payload && a.admit && GatesOk(c, message, a) && LetThrough(c, message, a)
      ensures (&& ReachesJudge(c, message, a) && a.verdict.TerminalFailure? && a.softDelete
               && !ReturnsEarly(retry, old(rows), old(vectors), candidate)) ==>
                && r == Err && candidate in rows
                && (AdmittedRow(old(rows), candidate, message.owner).owner == Some(message.owner) ==>
                  !rows[candidate].live)
      ensures Unhindered(c, message, old(rows), a) && BareAlone(old(rows), old(vectors)) ==>
                (NothingBare(rows, vectors) <==> ClearsAll(c, message, old(rows), old(vectors), a))
    {
      r := Once(message, retry, a);
      if Unhindered(c, m, start, a) {
        UnhinderedSucceeds(c, m, start, startVectors, retry, a, candidate);
      }
      if r.Ok? {
        BareOutcome(c, m, a, start, startVectors, rows, vectors, trace, candidate);
      }
    }

    /** Any interleaving of attempts of any number of messages of the identity, each retried as often as the turns
        say. Every attempt is safe, and a row left without a vector belongs to a message whose latest attempt failed;
        so once no such message is left, nothing is bare. */
    method Run(messages: seq<Message>, turns: seq<Turn>) returns (results: seq<Result>, ghost traces: seq<seq<Event>>)
      requires DistinctOwners(messages) && forall n :: 0 <= n < |turns| ==> turns[n].message < |messages|
      requires NothingBare(rows, vectors)
      modifies this
      ensures |results| == |traces| == |turns|
      ensures forall n :: 0 <= n < |traces| ==> TraceSafe(JudgeMandatory(c), traces[n])
      ensures forall i :: Bare(rows, vectors, i) ==> BareForAReason(c, messages, turns, results, rows[i].owner)
      ensures (forall k :: !StillOpen(turns, results, k)) ==> NothingBare(rows, vectors)
    {
      results, traces := [], [];
      ghost var pending: set<nat> := {};
      var tries: seq<nat> := seq(|messages|, _ => 0);
      for n := 0 to |turns|
        invariant |results| == |traces| == n && |tries| == |messages|
        invariant forall j :: 0 <= j < n ==> TraceSafe(JudgeMandatory(c), traces[j])
        invariant Consistent(pending, rows, vectors)
        invariant forall o :: o in pending ==> BareForAReason(c, messages, turns, results, Some(o))
      {
        var k := turns[n].message;
        ghost var before, had, earlier := rows, vectors, results;
        OwnersTell(c, messages, turns, results, pending, k);
        var r := Ingest(messages[k], tries[k], turns[n].answers);
        AttemptKeepsConsistent(c, m, pending, r, before, had, rows, vectors, trace, candidate);
        results, traces, tries := results + [r], traces + [trace], tries[k := tries[k] + 1];
        PendingStaysOpen(c, messages, turns, earlier, r, pending);
        pending := PendingAfter(c, m, pending, r);
      }
    }
  }

  // --- Runs ---

  datatype Turn = Turn(message: nat, answers: Answers)

  predicate DistinctOwners(messages: seq<Message>) {
    forall i, j :: 0 <= i < j < |messages| ==> messages[i].owner != messages[j].owner
  }

  predicate LastTurn(turns: seq<Turn>, results: seq<Result>, n: nat)
    requires |results| <= |turns|
  {
    n < |results| && forall j :: n < j < |results| ==> turns[j].message != turns[n].message
  }

  /** The latest attempt at message `k` failed. */
  predicate StillOpen(turns: seq<Turn>, results: seq<Result>, k: nat)
    requires |results| <= |turns|
  {
    exists n: nat :: n < |results| && turns[n].message == k && results[n].Err? && LastTurn(turns, results, n)
  }

  /** The owner is a message that gets past tier 1 and whose latest attempt failed. */
  ghost predicate BareForAReason(
    c: Config, messages: seq<Message>, turns: seq<Turn>, results: seq<Result>, owner: Option<nat>)
    requires |results| <= |turns|
  {
    exists k: nat :: k < |messages| && StillOpen(turns, results, k) && owner == Some(messages[k].owner)
                     && !Tier1Ends(c, messages[k])
  }

  lemma OwnersTell(c: Config, messages: seq<Message>, turns: seq<Turn>, results: seq<Result>, pending: set<nat>, k: nat)
    requires DistinctOwners(messages) && k < |messages| && |results| <= |turns|
    requires forall o :: o in pending ==> BareForAReason(c, messages, turns, results, Some(o))
    ensures Tier1Ends(c, messages[k]) ==> messages[k].owner !in pending
  {
  }

  lemma StaysOpen(turns: seq<Turn>, results: seq<Result>, r: Result, k: nat)
    requires |results| < |turns| && StillOpen(turns, results, k) && turns[|results|].message != k
    ensures StillOpen(turns, results + [r], k)
  {
    var n: nat :| n < |results| && turns[n].message == k && results[n].Err? && LastTurn(turns, results, n);
    assert (results + [r])[n].Err? && LastTurn(turns, results + [r], n);
  }

  lemma PendingStaysOpen(
    c: Config, messages: seq<Message>, turns: seq<Turn>, results: seq<Result>, r: Result, pending: set<nat>)
    requires |results| < |turns| && turns[|results|].message < |messages| && DistinctOwners(messages)
    requires forall o :: o in pending ==> BareForAReason(c, messages, turns, results, Some(o))
    ensures forall o :: o in PendingAfter(c, messages[turns[|results|].message], pending, r) ==>
              BareForAReason(c, messages, turns, results + [r], Some(o))
  {
    var n := |results|;
    var m := messages[turns[n].message];
    forall o | o in PendingAfter(c, m, pending, r) ensures BareForAReason(c, messages, turns, results + [r], Some(o)) {
      if o == m.owner {
        assert r.Err? && !Tier1Ends(c, m);
        assert (results + [r])[n].Err? && LastTurn(turns, results + [r], n);
        assert StillOpen(turns, results + [r], turns[n].message);
      } else {
        var k: nat :| k < |messages| && StillOpen(turns, results, k) && Some(o) == Some(messages[k].owner)
                      && !Tier1Ends(c, messages[k]);
        StaysOpen(turns, results, r, k);
      }
    }
  }

  /** A duplicate that novelty drops ends Ok and leaves the row another message admitted without a vector. */
  method DroppedDuplicate() returns (r: Result, rows: map<Id, Row>, vectors: set<Id>)
    ensures r.Ok? && Bare(rows, vectors, 0)
  {
    var config := Config(false, false, false, false, false, false, false, 0);
    var a := Answers(true, true, true, true, true, Accepted(0, None), true, Keep, true, true, true, true, true,
                     Some(Novelty(DropNear, false, None)), true, true, true, true, true, false, true, true);
    var admitted: map<Id, Row> := map[0 := Row(true, Some(2), true, 0)];
    var store := new IngestStore(config, admitted, {}, {2});
    assert LiveSame(admitted, 0);
    r := store.Ingest(Message(1, None, false, false, false), 0, a);
    rows, vectors := store.rows, store.vectors;
  }

}
