/** What one ingest attempt should do, said from the configuration, the message and the answers alone: which events it
    goes through, which row it writes, and what becomes of the row it admits. */
module IngestSpec {
  import opened Prelude
  import opened IngestGates

  type Id = nat

  /** A drawer row. `same` says that it has the identity (wing, room, content, project) of the messages' records. */
  datatype Row = Row(live: bool, owner: Option<nat>, same: bool, merges: nat)

  /** What does not change between attempts: tier 1 is a function of the message and the configuration. */
  datatype Message = Message(
    owner: nat, tier1: Option<Decision>, hasClassifier: bool, hasJudge: bool, bypassNovelty: bool)

  datatype NoveltyAction = InsertNew | DropNear | MergeNear
  datatype Novelty = Novelty(action: NoveltyAction, shouldAudit: bool, near: Option<Id>)

  /** The answers one attempt gets from database, embedder, classifier and judge; a write that fails changes
      nothing. */
  datatype Answers = Answers(
    resolve: bool, dropAudit: bool, payload: bool, admit: bool,
    classifyEmbed: bool, classified: Decision, classifyAudit: bool,
    verdict: Verdict, judgeAudit: bool, verdictRow: bool, plainAudit: bool, softDelete: bool,
    embed: bool, novelty: Option<Novelty>, noveltyAudit: bool, store: bool, payloadAgain: bool,
    lock: bool, mergeState: bool, tooLong: bool, mergeEmbed: bool, merge: bool)

  // --- The gates ---

  predicate JudgeMandatory(c: Config) {
    c.gatingEnabled && c.judgePresent && c.judgeEnabled
  }

  /** A decision that ends the attempt before the judge: a rejection, unless it is a below-threshold one and the judge
      has the last word. */
  predicate EndsHere(c: Config, d: Decision) {
    d.Rejected? && !(JudgeMandatory(c) && d.reason == Some("prototype_below_threshold"))
  }

  predicate Tier1Ends(c: Config, m: Message) {
    c.gatingEnabled && m.tier1.Some? && EndsHere(c, m.tier1.value)
  }

  /** There is a decision before the classifier: tier 1 made one, or tier 2 is switched off. */
  predicate DecidedEarly(c: Config, m: Message) {
    c.gatingEnabled && (m.tier1.Some? || !c.tier2Enabled)
  }

  predicate ClassifierRuns(c: Config, m: Message) {
    m.hasClassifier && !DecidedEarly(c, m)
  }

  predicate ClassifierEnds(c: Config, m: Message, a: Answers) {
    ClassifierRuns(c, m) && EndsHere(c, a.classified)
  }

  /** Every gate lets the message through. */
  predicate LetThrough(c: Config, m: Message, a: Answers) {
    && !Tier1Ends(c, m) && !ClassifierEnds(c, m, a)
    && (JudgeMandatory(c) ==> m.hasJudge && a.verdict.Keep?)
  }

  // --- The events, in order ---

  function ClassifierTrace(c: Config, m: Message): seq<Event> {
    if ClassifierRuns(c, m) then [Embedded(ForClassifier, true)] else []
  }

  function JudgeTrace(m: Message, a: Answers): seq<Event> {
    if !m.hasJudge then []
    else if a.verdict.Keep? || a.verdict.Reject? then [Judged(a.verdict, true), GatingAudit(a.verdict.Reject?)]
    else [Judged(a.verdict, true)]
  }

  /** Without the judge the earlier decision, if there is one, is what is audited. */
  function PlainTrace(c: Config, m: Message): seq<Event> {
    if DecidedEarly(c, m) || ClassifierRuns(c, m) then [GatingAudit(false)] else []
  }

  function StorageTrace(c: Config, m: Message): seq<Event> {
    if ClassifierRuns(c, m) then [] else [Embedded(ForStorage, true)]
  }

  /** The last gate: the judge where it is mandatory. */
  function SecondTrace(c: Config, m: Message, a: Answers): seq<Event> {
    if JudgeMandatory(c) then JudgeTrace(m, a) else PlainTrace(c, m)
  }

  /** From the last gate to the vector. */
  function AfterClassifier(c: Config, m: Message, a: Answers): seq<Event> {
    SecondTrace(c, m, a) + (if LetThrough(c, m, a) then StorageTrace(c, m) else [])
  }

  /** From admission to the vector. */
  function GateTrace(c: Config, m: Message, a: Answers): seq<Event> {
    ClassifierTrace(c, m) + (if ClassifierEnds(c, m, a) then [GatingAudit(true)] else AfterClassifier(c, m, a))
  }

  function MergeTarget(a: Answers, candidate: Id): Id {
    if a.novelty.Some? && a.novelty.value.near.Some? then a.novelty.value.near.value else candidate
  }

  /** The target has been merged into often enough, or the merged content would be too long. */
  predicate MergeCapped(c: Config, rows: map<Id, Row>, a: Answers, target: Id) {
    (if target in rows then rows[target].merges else 0) >= c.maxMerges || a.tooLong
  }

  function MergeTrace(c: Config, rows: map<Id, Row>, a: Answers, candidate: Id): seq<Event> {
    var target := MergeTarget(a, candidate);
    if MergeCapped(c, rows, a, target) then [NoveltyAudit, Stored(candidate)]
    else if !a.mergeEmbed then [Embedded(ForMerge, true), NoveltyAudit, Stored(candidate)]
    else [Embedded(ForMerge, true), Merged(target)]
  }

  /** From the vector on. */
  function PlaceTrace(c: Config, m: Message, rows: map<Id, Row>, a: Answers, candidate: Id): seq<Event> {
    if m.bypassNovelty then [Stored(candidate)]
    else if a.novelty.None? then []
    else
      var audit := if a.novelty.value.shouldAudit then [NoveltyAudit] else [];
      match a.novelty.value.action
      case InsertNew => audit + [Stored(candidate)]
      case DropNear => audit
      case MergeNear => MergeTrace(c, rows, a, candidate)
  }

  /** The whole attempt, if nothing stops it. */
  function ExpectedTrace(c: Config, m: Message, rows: map<Id, Row>, a: Answers, candidate: Id): seq<Event> {
    if Tier1Ends(c, m) then [GatingAudit(true)]
    else GateTrace(c, m, a) + (if LetThrough(c, m, a) then PlaceTrace(c, m, rows, a, candidate) else [])
  }

  // --- What is written ---

  /** The row a merge ends up writing: the target, or the candidate where it falls back to an insert. */
  function Merges(c: Config, rows: map<Id, Row>, a: Answers, candidate: Id): set<Id> {
    {MergedId(c, rows, a, candidate)}
  }

  /** Where the novelty decision puts the message, among the rows there were. */
  function Placed(c: Config, m: Message, rows: map<Id, Row>, a: Answers, candidate: Id): set<Id> {
    if m.bypassNovelty then {candidate}
    else if a.novelty.None? || a.novelty.value.action.DropNear? then {}
    else if a.novelty.value.action.InsertNew? then {candidate}
    else Merges(c, rows, a, candidate)
  }

  function ExpectedWrites(c: Config, m: Message, rows: map<Id, Row>, a: Answers, candidate: Id): set<Id> {
    if LetThrough(c, m, a) then Placed(c, m, rows, a, candidate) else {}
  }

  /** The id an attempt that ends Ok past the early return reports: the row it wrote, the near row it was dropped for,
      or else its candidate. */
  function ReportedId(c: Config, m: Message, rows: map<Id, Row>, a: Answers, candidate: Id): Id {
    if !LetThrough(c, m, a) || m.bypassNovelty || a.novelty.None? then candidate
    else match a.novelty.value.action
      case InsertNew => candidate
      case DropNear => MergeTarget(a, candidate)
      case MergeNear => MergedId(c, rows, a, candidate)
  }

  function MergedId(c: Config, rows: map<Id, Row>, a: Answers, candidate: Id): Id {
    if MergeCapped(c, rows, a, MergeTarget(a, candidate)) || !a.mergeEmbed then candidate else MergeTarget(a, candidate)
  }

  /** The message would give row `i` its vector. */
  predicate Embeds(c: Config, m: Message, rows: map<Id, Row>, a: Answers, i: Id) {
    i in ExpectedWrites(c, m, rows, a, i)
  }

  // --- What can go wrong ---

  /** Every read, write and model call of the attempt succeeds. */
  predicate Smooth(a: Answers) {
    && a.resolve && a.dropAudit && a.payload && a.admit && a.classifyEmbed && a.classifyAudit
    && (a.verdict.Keep? || a.verdict.Reject?) && a.judgeAudit && a.verdictRow && a.plainAudit && a.softDelete
    && a.embed && a.novelty.Some? && a.noveltyAudit && a.store && a.payloadAgain && a.lock && a.mergeState && a.merge
  }

  /** A merge needs its target to be live. */
  predicate TargetLive(rows: map<Id, Row>, a: Answers) {
    a.novelty.Some? && a.novelty.value.action.MergeNear? && a.novelty.value.near.Some? ==>
      var target := a.novelty.value.near.value; target in rows && rows[target].live
  }

  /** Nothing the attempt depends on fails or is missing. */
  predicate Unhindered(c: Config, m: Message, rows: map<Id, Row>, a: Answers) {
    Smooth(a) && (JudgeMandatory(c) ==> m.hasJudge) && TargetLive(rows, a)
  }

  /** The early return: a first attempt that finds its row already embedded. */
  predicate ReturnsEarly(retry: nat, rows: map<Id, Row>, vectors: set<Id>, candidate: Id) {
    retry == 0 && candidate in rows && candidate in vectors
  }

  /** The last gate lets the message go on: the judge, where it is mandatory, keeps it and both its records are written;
      otherwise the decision there is, if any, is audited. */
  predicate GoesOn(c: Config, m: Message, a: Answers) {
    if JudgeMandatory(c) then m.hasJudge && a.verdict.Keep? && a.judgeAudit && a.verdictRow
    else DecidedEarly(c, m) || ClassifierRuns(c, m) ==> a.plainAudit
  }

  /** The judge rejects, and everything about that is written. */
  predicate TurnedAway(c: Config, m: Message, a: Answers) {
    JudgeMandatory(c) && m.hasJudge && a.verdict.Reject? && a.judgeAudit && a.verdictRow && a.softDelete
  }

  /** Nothing the gates need fails. */
  predicate GatesOk(c: Config, m: Message, a: Answers) {
    && (ClassifierRuns(c, m) ==> a.classifyEmbed)
    && if ClassifierEnds(c, m, a) then a.classifyAudit && a.softDelete
       else (GoesOn(c, m, a) && (ClassifierRuns(c, m) || a.embed)) || TurnedAway(c, m, a)
  }

  predicate StoreOk(a: Answers) {
    a.store && a.payloadAgain
  }

  /** Nothing a merge needs fails: the lock and the target's state, and the transaction or the insert instead of it. */
  predicate MergeOk(c: Config, rows: map<Id, Row>, a: Answers, candidate: Id) {
    var target := MergeTarget(a, candidate);
    && a.mergeState && (target != candidate ==> a.lock && target in rows && rows[target].live)
    && if MergeCapped(c, rows, a, target) || !a.mergeEmbed then a.noveltyAudit && StoreOk(a)
       else a.merge && a.payloadAgain
  }

  /** Nothing placement needs fails. */
  predicate PlaceOk(c: Config, m: Message, rows: map<Id, Row>, a: Answers, candidate: Id) {
    if m.bypassNovelty then StoreOk(a)
    else
      && a.novelty.Some?
      && match a.novelty.value.action
         case InsertNew => (a.novelty.value.shouldAudit ==> a.noveltyAudit) && StoreOk(a)
         case DropNear => (a.novelty.value.shouldAudit ==> a.noveltyAudit) && a.softDelete
         case MergeNear => MergeOk(c, rows, a, candidate)
  }

  /** From admission on, nothing fails. */
  predicate AdmittedOk(c: Config, m: Message, rows: map<Id, Row>, a: Answers, candidate: Id) {
    && a.payload && a.admit && GatesOk(c, m, a)
    && (LetThrough(c, m, a) ==> PlaceOk(c, m, rows, a, candidate))
  }

  /** Everything the attempt needs on its way succeeds. */
  predicate Succeeds(
    c: Config, m: Message, rows: map<Id, Row>, vectors: set<Id>, retry: nat, a: Answers, candidate: Id)
  {
    && a.resolve
    && if ReturnsEarly(retry, rows, vectors, candidate) then true
       else if Tier1Ends(c, m) then a.dropAudit
       else AdmittedOk(c, m, rows, a, candidate)
  }

  lemma UnhinderedSucceeds(
    c: Config, m: Message, rows: map<Id, Row>, vectors: set<Id>, retry: nat, a: Answers, candidate: Id)
    requires Unhindered(c, m, rows, a)
    ensures Succeeds(c, m, rows, vectors, retry, a, candidate)
  {
  }

  /** The attempt gets as far as asking the judge. */
  predicate ReachesJudge(c: Config, m: Message, a: Answers) {
    && JudgeMandatory(c) && m.hasJudge && !Tier1Ends(c, m) && !ClassifierEnds(c, m, a)
    && a.resolve && a.payload && a.admit && (ClassifierRuns(c, m) ==> a.classifyEmbed)
  }

  /** The judge, once asked, fails for good, and the admission can be released. */
  predicate JudgeFailsForGood(c: Config, m: Message, a: Answers) {
    && JudgeMandatory(c) && m.hasJudge && !ClassifierEnds(c, m, a) && (ClassifierRuns(c, m) ==> a.classifyEmbed)
    && a.verdict.TerminalFailure? && a.softDelete
  }

  // --- What becomes of the candidate ---

  /** The candidate row right after admission: the one there was, or a new one of this message. */
  function AdmittedRow(start: map<Id, Row>, candidate: Id, owner: nat): Row {
    if candidate in start then start[candidate] else Row(true, Some(owner), true, 0)
  }

  function AfterMerge(row: Row, merged: bool): Row {
    if merged then row.(same := false, merges := row.merges + 1) else row
  }

  /** The candidate row of a finished attempt that wrote `written`: embedded and released, merged into, consumed by a
      merge elsewhere, or rejected. Only its owner consumes or rejects it. */
  function FinalRow(start: map<Id, Row>, candidate: Id, owner: nat, merged: bool, written: set<Id>): Option<Row> {
    var row := AdmittedRow(start, candidate, owner);
    if candidate in written then Some(if merged then AfterMerge(row, true) else row.(owner := None))
    else if row.owner != Some(owner) then Some(row)
    else if written != {} then None
    else Some(row.(live := false))
  }

  function RowAt(rows: map<Id, Row>, i: Id): Option<Row> {
    if i in rows then Some(rows[i]) else None
  }

  // --- What the expected events come to ---

  /** A tier-1 rejection is audited and nothing else, unless a mandatory judge has the last word on it. */
  lemma RejectedAtOnce(c: Config, m: Message, rows: map<Id, Row>, a: Answers, candidate: Id, d: Decision)
    requires c.gatingEnabled && m.tier1 == Some(d) && d.Rejected?
    requires !(c.judgePresent && c.judgeEnabled && d.reason == Some("prototype_below_threshold"))
    ensures ExpectedTrace(c, m, rows, a, candidate) == [GatingAudit(true)]
    ensures ExpectedWrites(c, m, rows, a, candidate) == {}
  {
  }

  /** With `classifier`: no vector is computed for the classifier. With `judge`: the judge is not asked. */
  predicate NoneOf(es: seq<Event>, classifier: bool, judge: bool) {
    forall i :: 0 <= i < |es| ==>
      (classifier && es[i].Embedded? ==> es[i].purpose != ForClassifier) && (judge ==> !es[i].Judged?)
  }

  lemma PlacingAsksNobody(c: Config, m: Message, rows: map<Id, Row>, a: Answers, candidate: Id)
    ensures NoneOf(PlaceTrace(c, m, rows, a, candidate), true, true)
  {
  }

  lemma GatesAsk(c: Config, m: Message, a: Answers)
    ensures NoneOf(GateTrace(c, m, a), !ClassifierRuns(c, m), !(JudgeMandatory(c) && m.hasJudge))
  {
  }

  /** With gating on, no classifier runs for a message tier 1 decided, or when tier 2 is off; and the judge is asked
      only if gating is on and it is configured, enabled and at hand. */
  lemma WhoIsAsked(c: Config, m: Message, rows: map<Id, Row>, a: Answers, candidate: Id)
    ensures NoneOf(ExpectedTrace(c, m, rows, a, candidate),
                   !m.hasClassifier || (c.gatingEnabled && (m.tier1.Some? || !c.tier2Enabled)),
                   !(c.gatingEnabled && c.judgePresent && c.judgeEnabled && m.hasJudge))
  {
    PlacingAsksNobody(c, m, rows, a, candidate);
    GatesAsk(c, m, a);
  }
}
