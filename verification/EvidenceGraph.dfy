/** The routing graph around the evidence gate (`src/evidence_workflow.rs`): nodes that read and write JSON
    channels, conditional edges, and the packs they produce. */
module EvidenceGraph {
  import opened Prelude
  import opened Evidence

  datatype Route = QualityGatedEvidence | RawBoundedHits
  datatype Reason = Disabled | NoCandidates | BelowQualityThreshold | CitationVerificationFailed | WorkflowError

  datatype Pack = Pack(
    route: Route, items: seq<Item>, reason: Option<Reason>,
    retrievedHits: nat, selectedHits: nat, rawTokens: nat, selectedTokens: nat,
    compressionRatio: real, minimumRelevance: Score)

  function BuildPack(c: Config, hits: seq<Hit>, items: seq<Item>, route: Route, reason: Option<Reason>): Pack {
    var raw, selected := HitTokens(hits), ItemTokens(items);
    Pack(route, items, reason, |hits|, |items|, raw, selected,
         Ratio(selected, raw), c.minimumRelevance)
  }

  /** The valid hits, in order, as items. */
  function ValidItems(c: Config, hits: seq<Hit>): seq<Item> {
    if hits == [] then [] else
      var front, h := ValidItems(c, hits[..|hits| - 1]), hits[|hits| - 1];
      if CitationIsValid(c, h) then front + [IntoItem(h)] else front
  }

  function RawPack(c: Config, hits: seq<Hit>, reason: Reason): Pack {
    BuildPack(c, Window(c, hits), ValidItems(c, Window(c, hits)), RawBoundedHits, Some(reason))
  }

  // --- Channels ---

  /** JSON has no NaN or infinity: a non-finite float becomes null and does not read back as a float. */
  predicate SurvivesJson(c: Config, hits: seq<Hit>) {
    c.minimumRelevance.Finite? && HitsSurviveJson(hits)
  }

  predicate HitsSurviveJson(hits: seq<Hit>) {
    forall i :: 0 <= i < |hits| ==> hits[i].score.Finite?
  }

  datatype Node = Eligibility | Select | Verify | QualityOutput | RawFallback | End
  datatype Label = ToSelect | ToQuality | ToFallback

  /** `config` and `rawHits` hold what reading the channel back yields. */
  datatype Channels = Channels(
    config: Option<Config>, rawHits: Option<seq<Hit>>, selected: seq<Item>,
    route: Option<Label>, reason: Option<Reason>, pack: Option<Pack>)

  function Input(c: Config, hits: seq<Hit>): Channels {
    Channels(if c.minimumRelevance.Finite? then Some(c) else None,
             if HitsSurviveJson(hits) then Some(hits) else None, [], None, None, None)
  }

  /** One node: its channel updates, or None when a channel it needs does not read back. The verifier
      enters through its contract, `Acceptable`. */
  ghost function RunNode(node: Node, s: Channels): Option<Channels> {
    if s.config.None? then None
    else if node.Eligibility? then
      if s.config.value.enabled then Some(s.(route := Some(ToSelect)))
      else Some(s.(route := Some(ToFallback), reason := Some(Disabled)))
    else if s.rawHits.None? then None
    else
      var c, hits := s.config.value, s.rawHits.value;
      match node
      case Select => Some(s.(selected := Selection(c, hits)))
      case Verify =>
        if hits == [] then Some(s.(route := Some(ToFallback), reason := Some(NoCandidates)))
        else if s.selected == [] then Some(s.(route := Some(ToFallback), reason := Some(BelowQualityThreshold)))
        else if Acceptable(c, hits, s.selected) then Some(s.(route := Some(ToQuality)))
        else Some(s.(route := Some(ToFallback), reason := Some(CitationVerificationFailed)))
      case QualityOutput => Some(s.(pack := Some(BuildPack(c, hits, s.selected, QualityGatedEvidence, None))))
      case RawFallback =>
        Some(s.(pack := Some(RawPack(c, hits, if s.reason.Some? then s.reason.value else WorkflowError))))
      case _ => Some(s)
  }

  /** Plain edges, and conditional edges on the `route` channel; an unknown label ends the run in an error. */
  function NextNode(node: Node, s: Channels): Option<Node> {
    var chosen := if s.route.Some? then s.route.value else ToFallback;
    match node
    case Eligibility =>
      if chosen.ToSelect? then Some(Select) else if chosen.ToFallback? then Some(RawFallback) else None
    case Select => Some(Verify)
    case Verify =>
      if chosen.ToQuality? then Some(QualityOutput) else if chosen.ToFallback? then Some(RawFallback) else None
    case QualityOutput => Some(End)
    case RawFallback => Some(End)
    case End => None
  }

  /** Follows the graph from `node`; more than `limit` nodes is an error. */
  ghost function Invoke(node: Node, s: Channels, limit: nat): Option<Channels>
    decreases limit
  {
    if node.End? then Some(s)
    else if limit == 0 then None
    else
      var after := RunNode(node, s);
      if after.None? then None else
        var next := NextNode(node, after.value);
        if next.None? then None else Invoke(next.value, after.value, limit - 1)
  }

  const RECURSION_LIMIT: nat := 8

  ghost function RunEvidenceWorkflow(c: Config, hits: seq<Hit>): Pack {
    var done := Invoke(Eligibility, Input(c, hits), RECURSION_LIMIT);
    if done.Some? && done.value.pack.Some? then done.value.pack.value else RawPack(c, hits, WorkflowError)
  }

  // --- What comes out ---

  lemma {:induction false} SelectionIsNotLarger(c: Config, hits: seq<Hit>)
    ensures ItemTokens(Pick(c, hits).items) <= HitTokens(hits)
  {
    if hits == [] {
    } else {
      SelectionIsNotLarger(c, hits[..|hits| - 1]);
      TokensOfAppend(Pick(c, hits[..|hits| - 1]).items, IntoItem(hits[|hits| - 1]));
    }
  }

  lemma {:induction false} ValidItemsAreNotLarger(c: Config, hits: seq<Hit>)
    ensures ItemTokens(ValidItems(c, hits)) <= HitTokens(hits)
  {
    if hits == [] {
    } else {
      ValidItemsAreNotLarger(c, hits[..|hits| - 1]);
      TokensOfAppend(ValidItems(c, hits[..|hits| - 1]), IntoItem(hits[|hits| - 1]));
    }
  }

  lemma TokensOfAppend(items: seq<Item>, i: Item)
    ensures ItemTokens(items + [i]) == ItemTokens(items) + EstimateTokens(i.exactQuote)
  {
    assert (items + [i])[..|items|] == items;
  }

  lemma {:induction false} WindowIsNotLarger(hits: seq<Hit>, k: nat)
    requires k <= |hits|
    ensures HitTokens(hits[..k]) <= HitTokens(hits)
    decreases |hits|
  {
    if k < |hits| {
      WindowIsNotLarger(hits[..|hits| - 1], k);
      assert hits[..|hits| - 1][..k] == hits[..k];
    } else {
      assert hits[..k] == hits;
    }
  }

  /** `items` are verbatim copies of exactly the valid hits: `indices` lists their positions, in order. */
  ghost predicate CopiesTheValid(c: Config, hits: seq<Hit>, items: seq<Item>, indices: seq<nat>) {
    && |indices| == |items|
    && (forall m, n :: 0 <= m < n < |indices| ==> indices[m] < indices[n])
    && (forall n :: 0 <= n < |indices| ==> indices[n] < |hits| && Verbatim(items[n], hits[indices[n]]))
    && (forall k :: 0 <= k < |hits| ==> (CitationIsValid(c, hits[k]) <==> k in indices))
  }

  lemma CopiesOneMore(c: Config, hits: seq<Hit>, items: seq<Item>, indices: seq<nat>, h: Hit)
    requires CopiesTheValid(c, hits, items, indices)
    ensures if CitationIsValid(c, h) then CopiesTheValid(c, hits + [h], items + [IntoItem(h)], indices + [|hits|])
            else CopiesTheValid(c, hits + [h], items, indices)
  {
    var all := hits + [h];
    assert all[|hits|] == h && forall k :: 0 <= k < |hits| ==> all[k] == hits[k];
    assert |hits| !in indices;
    assert forall k :: k in indices + [|hits|] <==> k in indices || k == |hits|;
  }

  lemma {:induction false} ValidItemsByPosition(c: Config, hits: seq<Hit>) returns (indices: seq<nat>)
    ensures CopiesTheValid(c, hits, ValidItems(c, hits), indices)
  {
    if |hits| == 0 {
      indices := [];
    } else {
      var front, h := hits[..|hits| - 1], hits[|hits| - 1];
      indices := ValidItemsByPosition(c, front);
      CopiesOneMore(c, front, ValidItems(c, front), indices, h);
      assert hits == front + [h];
      indices := if CitationIsValid(c, h) then indices + [|front|] else indices;
    }
  }

  /** What a pack accounts for: the hits it was built from, the items and their tokens, and the threshold. */
  predicate Accounts(c: Config, p: Pack, hits: seq<Hit>) {
    && p.retrievedHits == |hits| && p.rawTokens == HitTokens(hits)
    && p.selectedHits == |p.items| && p.selectedTokens == ItemTokens(p.items)
    && p.minimumRelevance == c.minimumRelevance
    && p.compressionRatio == Ratio(p.selectedTokens, p.rawTokens)
  }

  function Ratio(selected: nat, raw: nat): real {
    if raw == 0 then 0.0 else (selected as real) / (raw as real)
  }

  lemma BuiltAccounts(c: Config, hits: seq<Hit>, items: seq<Item>, route: Route, reason: Option<Reason>)
    ensures var p := BuildPack(c, hits, items, route, reason);
            Accounts(c, p, hits) && p.items == items && p.route == route && p.reason == reason
  {
  }

  /** Why the workflow falls back, if it does. */
  function FallbackReason(c: Config, hits: seq<Hit>): Option<Reason> {
    if !SurvivesJson(c, hits) then Some(WorkflowError)
    else if !c.enabled then Some(Disabled)
    else if hits == [] then Some(NoCandidates)
    else if Selection(c, hits) == [] then Some(BelowQualityThreshold)
    else if !DistinctIds(Window(c, hits)) then Some(CitationVerificationFailed)
    else None
  }

  lemma WorkflowPack(c: Config, hits: seq<Hit>)
    ensures RunEvidenceWorkflow(c, hits) ==
            if c.enabled && SurvivesJson(c, hits) && Selection(c, hits) != [] && DistinctIds(Window(c, hits))
            then BuildPack(c, hits, Selection(c, hits), QualityGatedEvidence, None)
            else BuildPack(c, Window(c, hits), ValidItems(c, Window(c, hits)), RawBoundedHits, FallbackReason(c, hits))
    ensures FallbackReason(c, hits).None? <==>
              c.enabled && SurvivesJson(c, hits) && Selection(c, hits) != [] && DistinctIds(Window(c, hits))
  {
    VerifierAcceptsSelection(c, hits);
    if SurvivesJson(c, hits) && c.enabled {
      EnabledRun(c, hits, RECURSION_LIMIT);
      assert hits == [] ==> Window(c, hits) == [] && Selection(c, hits) == [];
    } else {
      ShortRun(c, hits, RECURSION_LIMIT);
    }
  }

  predicate TokensFit(p: Pack) {
    p.selectedTokens <= p.rawTokens && 0.0 <= p.compressionRatio <= 1.0
  }

  lemma GatedPack(c: Config, hits: seq<Hit>, p: Pack)
    requires p == BuildPack(c, hits, Selection(c, hits), QualityGatedEvidence, None)
    ensures p.items == Selection(c, hits) && Accounts(c, p, hits) && TokensFit(p)
  {
    var window := Window(c, hits);
    BuiltAccounts(c, hits, Selection(c, hits), QualityGatedEvidence, None);
    SelectionIsNotLarger(c, window);
    WindowIsNotLarger(hits, |window|);
    RatioIsAFraction(p.selectedTokens, p.rawTokens);
  }

  lemma RawPackOf(c: Config, window: seq<Hit>, reason: Option<Reason>, p: Pack) returns (indices: seq<nat>)
    requires p == BuildPack(c, window, ValidItems(c, window), RawBoundedHits, reason)
    ensures CopiesTheValid(c, window, p.items, indices) && Accounts(c, p, window) && TokensFit(p)
  {
    BuiltAccounts(c, window, ValidItems(c, window), RawBoundedHits, reason);
    indices := ValidItemsByPosition(c, window);
    ValidItemsAreNotLarger(c, window);
    RatioIsAFraction(p.selectedTokens, p.rawTokens);
  }

  /** The whole graph in closed form: gated evidence comes out exactly when the workflow is enabled, every
      score and the threshold are finite, something was selected and the window's ids are distinct. It is then
      the selection, accounted against all hits. Otherwise verbatim copies of exactly the valid hits of the window
      come out in order, with the matching reason, accounted against the window. On both routes the selected tokens
      never exceed the raw ones. */
  lemma WorkflowOutcome(c: Config, hits: seq<Hit>) returns (indices: seq<nat>)
    ensures var p, window := RunEvidenceWorkflow(c, hits), Window(c, hits);
            && (p.route.QualityGatedEvidence? <==>
                  c.enabled && SurvivesJson(c, hits) && Selection(c, hits) != [] && DistinctIds(window))
            && p.reason == FallbackReason(c, hits)
            && (p.route.QualityGatedEvidence? ==> p.items == Selection(c, hits) && Accounts(c, p, hits))
            && (p.route.RawBoundedHits? ==> CopiesTheValid(c, window, p.items, indices) && Accounts(c, p, window))
            && TokensFit(p)
  {
    WorkflowPack(c, hits);
    var p := RunEvidenceWorkflow(c, hits);
    if FallbackReason(c, hits).None? {
      GatedPack(c, hits, p);
      indices := [];
    } else {
      indices := RawPackOf(c, Window(c, hits), FallbackReason(c, hits), p);
    }
  }

  lemma RatioIsAFraction(selected: nat, raw: nat)
    requires selected <= raw
    ensures 0.0 <= Ratio(selected, raw) <= 1.0
    ensures raw > 0 ==> Ratio(selected, raw) * (raw as real) == selected as real
  {
  }

  lemma InvokeStep(node: Node, s: Channels, t: Channels, next: Node, limit: nat)
    requires !node.End? && limit > 0 && RunNode(node, s) == Some(t) && NextNode(node, t) == Some(next)
    ensures Invoke(node, s, limit) == Invoke(next, t, limit - 1)
  {
  }

  /** Disabled, or a channel does not read back: one or two nodes. */
  lemma ShortRun(c: Config, hits: seq<Hit>, limit: nat)
    requires limit >= 4 && !(SurvivesJson(c, hits) && c.enabled)
    ensures var r := Invoke(Eligibility, Input(c, hits), limit);
            if SurvivesJson(c, hits) then r.Some? && r.value.pack == Some(RawPack(c, hits, Disabled)) else r.None?
  {
    var s := Input(c, hits);
    if c.minimumRelevance.Finite? {
      var s1 := RunNode(Eligibility, s).value;
      InvokeStep(Eligibility, s, s1, NextNode(Eligibility, s1).value, limit);
      if HitsSurviveJson(hits) {
        InvokeStep(RawFallback, s1, RunNode(RawFallback, s1).value, End, limit - 1);
      }
    }
  }

  /** The pack the verdict leads to. */
  ghost function VerdictPack(c: Config, hits: seq<Hit>, selected: seq<Item>): Pack {
    if hits != [] && selected != [] && Acceptable(c, hits, selected)
    then BuildPack(c, hits, selected, QualityGatedEvidence, None)
    else RawPack(c, hits, if hits == [] then NoCandidates
                          else if selected == [] then BelowQualityThreshold
                          else CitationVerificationFailed)
  }

  /** From the verify node on: one of the two output nodes, and the end. */
  lemma FromVerify(c: Config, hits: seq<Hit>, s: Channels, limit: nat)
    requires limit >= 2 && s.config == Some(c) && s.rawHits == Some(hits)
    ensures var r := Invoke(Verify, s, limit); r.Some? && r.value.pack == Some(VerdictPack(c, hits, s.selected))
  {
    var t := RunNode(Verify, s).value;
    var out := NextNode(Verify, t).value;
    InvokeStep(Verify, s, t, out, limit);
    InvokeStep(out, t, RunNode(out, t).value, End, limit - 1);
  }

  lemma FromSelect(c: Config, hits: seq<Hit>, s: Channels, limit: nat)
    requires limit >= 3 && s.config == Some(c) && s.rawHits == Some(hits)
    ensures var r := Invoke(Select, s, limit); r.Some? && r.value.pack == Some(VerdictPack(c, hits, Selection(c, hits)))
  {
    var t := s.(selected := Selection(c, hits));
    InvokeStep(Select, s, t, Verify, limit);
    FromVerify(c, hits, t, limit - 1);
  }

  /** Enabled: eligibility, select, verify, and the output node the verdict leads to. */
  lemma EnabledRun(c: Config, hits: seq<Hit>, limit: nat)
    requires limit >= 4 && SurvivesJson(c, hits) && c.enabled
    ensures var r := Invoke(Eligibility, Input(c, hits), limit);
            r.Some? && r.value.pack == Some(VerdictPack(c, hits, Selection(c, hits)))
  {
    var s := Input(c, hits);
    var t := s.(route := Some(ToSelect));
    InvokeStep(Eligibility, s, t, Select, limit);
    FromSelect(c, hits, t, limit - 1);
  }
}
