/** The pure gates of hook ingestion (`src/daemon.rs`, `src/ingest/gating.rs`) and what a trace of one ingest attempt
    must satisfy. */
module IngestGates {
  import opened Prelude

  datatype Decision = Accepted(tier: nat, tag: Option<string>) | Rejected(tier: nat, reason: Option<string>)

  datatype Config = Config(
    gatingEnabled: bool, judgePresent: bool, judgeEnabled: bool, tieredPolicy: bool,
    llmEnabled: bool, llmForGating: bool, tier2Enabled: bool, maxMerges: nat)

  const PROTOTYPE_BELOW_THRESHOLD: string := "prototype_below_threshold"

  predicate GateRequired(c: Config) {
    c.gatingEnabled && c.judgePresent && c.judgeEnabled
  }

  predicate JudgeActive(c: Config) {
    c.gatingEnabled && c.llmEnabled && c.llmForGating && c.judgePresent && c.judgeEnabled
  }

  predicate BelowThreshold(d: Decision) {
    d.Rejected? && d.reason == Some(PROTOTYPE_BELOW_THRESHOLD)
  }

  /** `should_route_to_llm_judge`, guard by guard. */
  predicate RoutesToJudge(c: Config, decision: Option<Decision>) {
    JudgeActive(c) && decision.Some? &&
    var d := decision.value;
    if d.Accepted? && d.tag == Some("llm_pending") then true
    else if d.tier <= 1 && d.Accepted? && d.tag.Some? then false
    else if d.Rejected? && !BelowThreshold(d) then false
    else if c.tieredPolicy && !BelowThreshold(d) then false
    else true
  }

  /** `should_drop_reject_before_automatic_hook_llm_gate`. */
  predicate DropsBeforeGate(c: Config, d: Decision) {
    d.Rejected? && !(GateRequired(c) && BelowThreshold(d)) && !RoutesToJudge(c, Some(d))
  }

  /** A rejection survives to the LLM gate exactly when gating and the judge are on and the rejection is a
      below-threshold one. */
  lemma SurvivingRejections(c: Config, d: Decision)
    requires d.Rejected?
    ensures !DropsBeforeGate(c, d) <==>
              c.gatingEnabled && c.judgePresent && c.judgeEnabled && d.reason == Some("prototype_below_threshold")
  {
  }

  /** What goes to the asynchronous judge when gating, the judge and its LLM are all on: an accepted decision that is
      pending, or untagged or of the classifier under the policy without tiers; and a below-threshold rejection. */
  lemma RoutedDecisions(c: Config, d: Decision)
    ensures RoutesToJudge(c, Some(d)) <==>
              && c.gatingEnabled && c.judgePresent && c.judgeEnabled && c.llmEnabled && c.llmForGating
              && match d
                 case Accepted(tier, tag) => tag == Some("llm_pending") || (!c.tieredPolicy
                   && (tier >= 2 || tag == None))
                 case Rejected(_, reason) => reason == Some("prototype_below_threshold")
  {
  }

  /** What the gates leave to decide a write: an accepted decision of the judge if it is required, and otherwise
      anything but a rejection. */
  predicate MayStore(c: Config, decision: Option<Decision>) {
    && (decision.Some? ==> decision.value.Accepted?)
    && (GateRequired(c) ==> decision == Some(Accepted(0, Some("llm_keep"))))
  }

  /** Behind the synchronous gate the asynchronous judge is never asked again. */
  lemma NeverQueuedAfterGate(c: Config, decision: Option<Decision>)
    requires MayStore(c, decision)
    ensures !RoutesToJudge(c, decision)
  {
    assert "llm_keep" != "llm_pending" by {
      assert "llm_keep"[4] != "llm_pending"[4];
    }
  }

  // --- Traces of one attempt ---

  datatype Verdict = Keep | Reject | RetryableFailure | TerminalFailure

  /** What a vector is computed for. */
  datatype Purpose = ForClassifier | ForStorage | ForMerge

  /** A model call records whether row and raw payload were durable when it was made. */
  datatype Event =
    | Embedded(purpose: Purpose, durable: bool)
    | Judged(verdict: Verdict, durable: bool)
    | GatingAudit(rejected: bool)
    | NoveltyAudit
    | Stored(id: nat)
    | Merged(id: nat)

  predicate Writes(e: Event) {
    e.Stored? || e.Merged?
  }

  predicate ModelCall(e: Event) {
    e.Embedded? || e.Judged?
  }

  /** Model calls only on durable data, at most one gating audit, every write cleared by what was audited and, where
      the gate is required, by an earlier keep of the judge. */
  ghost predicate TraceSafe(required: bool, trace: seq<Event>) {
    && (forall i :: 0 <= i < |trace| && ModelCall(trace[i]) ==> trace[i].durable)
    && (forall i, j :: 0 <= i < j < |trace| ==> !(trace[i].GatingAudit? && trace[j].GatingAudit?))
    && (forall i :: 0 <= i < |trace| && Writes(trace[i]) ==>
          Unrejected(trace, i) && (required ==> KeptBefore(trace, i)))
  }

  predicate Unrejected(trace: seq<Event>, i: nat)
    requires i <= |trace|
  {
    forall j :: 0 <= j < i && trace[j].GatingAudit? ==> !trace[j].rejected
  }

  ghost predicate KeptBefore(trace: seq<Event>, i: nat)
    requires i <= |trace|
  {
    exists j :: 0 <= j < i && trace[j].Judged? && trace[j].verdict.Keep?
  }

  /** A monitor that reads the trace once. */
  datatype Watch = Watch(audits: nat, rejected: bool, kept: bool, ok: bool)

  function Observe(required: bool, w: Watch, e: Event): Watch {
    match e
    case Embedded(_, durable) => w.(ok := w.ok && durable)
    case Judged(verdict, durable) => w.(ok := w.ok && durable, kept := w.kept || verdict.Keep?)
    case GatingAudit(rejected) =>
      w.(audits := w.audits + 1, ok := w.ok && w.audits == 0, rejected := w.rejected || rejected)
    case NoveltyAudit => w
    case Stored(_) => w.(ok := w.ok && !w.rejected && (required ==> w.kept))
    case Merged(_) => w.(ok := w.ok && !w.rejected && (required ==> w.kept))
  }

  function Monitor(required: bool, trace: seq<Event>): Watch {
    if trace == [] then Watch(0, false, false, true)
    else Observe(required, Monitor(required, trace[..|trace| - 1]), trace[|trace| - 1])
  }

  lemma MonitorAppend(required: bool, trace: seq<Event>, e: Event)
    ensures Monitor(required, trace + [e]) == Observe(required, Monitor(required, trace), e)
  {
    assert (trace + [e])[..|trace|] == trace;
  }

  /** The monitor's fields mean what they say. */
  ghost predicate Tracks(w: Watch, trace: seq<Event>) {
    && (w.audits == 0 ==> forall i :: 0 <= i < |trace| ==> !trace[i].GatingAudit?)
    && (!w.rejected ==> Unrejected(trace, |trace|))
    && (w.kept ==> KeptBefore(trace, |trace|))
  }

  lemma ObserveTracks(required: bool, w: Watch, trace: seq<Event>, e: Event)
    requires Tracks(w, trace)
    ensures Tracks(Observe(required, w, e), trace + [e])
  {
    var all := trace + [e];
    assert forall i :: 0 <= i < |trace| ==> all[i] == trace[i];
    assert all[|trace|] == e;
    if w.kept {
      var j :| 0 <= j < |trace| && trace[j].Judged? && trace[j].verdict.Keep?;
      assert all[j].Judged? && all[j].verdict.Keep?;
    }
  }

  lemma ObserveSafe(required: bool, w: Watch, trace: seq<Event>, e: Event)
    requires Tracks(w, trace) && TraceSafe(required, trace) && Observe(required, w, e).ok && w.ok
    ensures TraceSafe(required, trace + [e])
  {
    var all := trace + [e];
    assert forall i :: 0 <= i < |trace| ==> all[i] == trace[i];
    assert all[|trace|] == e;
    forall i | 0 <= i < |all| && Writes(all[i]) ensures Unrejected(all, i) && (required ==> KeptBefore(all, i)) {
      assert Unrejected(trace, i);
      if required {
        assert KeptBefore(trace, i);
        var j :| 0 <= j < i && trace[j].Judged? && trace[j].verdict.Keep?;
        assert all[j].Judged? && all[j].verdict.Keep?;
      }
    }
  }

  /** What the monitor accepts is safe. */
  lemma {:induction false} MonitorSound(required: bool, trace: seq<Event>)
    ensures Tracks(Monitor(required, trace), trace)
    ensures Monitor(required, trace).ok ==> TraceSafe(required, trace)
  {
    if trace == [] {
    } else {
      var front, last := trace[..|trace| - 1], trace[|trace| - 1];
      assert trace == front + [last];
      MonitorSound(required, front);
      ObserveTracks(required, Monitor(required, front), front, last);
      if Monitor(required, trace).ok {
        ObserveSafe(required, Monitor(required, front), front, last);
      }
    }
  }
}
