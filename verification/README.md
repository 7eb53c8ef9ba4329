# Verified models of mempal's daemon and retrieval core

mempal is a memory store with a background daemon: hooks hand it messages, the daemon admits, gates, embeds and stores
them as drawers, restarts itself under a budget when the database misbehaves, schedules calls over model endpoints, and
assembles context and evidence packs from what it stored. This project models the parts of that code whose correctness
is a statement about whole runs, interleavings or unbounded inputs, and proves those statements.

`dafny verify dfyconfig.toml` checks everything. Every module follows one component:

- `IngestGates`, `IngestSpec`, `Ingest`: ingestion of one hook message, with every database, embedder, classifier, judge
  and novelty answer left open, and retried any number of times; `IngestSpec` says what an attempt should do.
- `RecoveryRequeue`: requeueing failed model tasks when an endpoint comes back.
- `RecoveryState`, `RecoveryRuns`, `RecoveryStore`, `FaultReporter`: the restart budget, the bounded admission wait and
  the fault reporter shared by threads.
- `EndpointPool`, `EndpointRuns`: the endpoint scheduler, one call and many interleaved calls.
- `ApplyProtocol`, `ApplyReport`: the receipt-fenced apply of a historical rejudge and its counts.
- `Evidence`, `EvidenceGraph`: the evidence selector, its verifier and the routing graph around them.
- `ContextAssembly`, `ContextLaws`, `FlatAssembly`, `ForesightSection`, `ForesightLaws`, `ForesightPrepend`: the flat
  context assembler; the two `Laws` modules say what a context holds in terms of what the database answers.
- `HolderTermination`, `HolderPlan`: terminating stale database holders, and choosing them.
- `Utf8`, `DaemonArgv`: recognising daemon processes by their command line.
- `Prelude`, `Machine`: shared vocabulary (saturating `u64`, `Vec::retain`) and runs of a step function.

Code that updates state in place is modelled by classes and loops that are proved against functions; what the source
promises is then proved about those functions, over all inputs and all runs. Clocks, randomness, the database, the
network and the models enter as parameters or as answers that may be anything, including failures.

Some promises hold only under a condition a caller can check, and the condition is proved exact:

- the restart budget holds for generations from 1 on and a clock below `u64::MAX` (`RecoveryRuns.BudgetHoldsExactly`);
- cooldowns are respected by interleaved calls unless the strategy clears them on success
  (`EndpointRuns.CooldownsRespectedExactly`);
- an Ok ingest leaves no row of its identity without a vector exactly if every such row it meets is its own to release
  or gets embedded by it: a duplicate that novelty drops, or that is merged elsewhere, leaves the row another message
  admitted as it is (`Ingest.NothingBareExactly`, `Ingest.DroppedDuplicate`). That row then belongs to a message whose
  latest attempt failed, so nothing is left bare once every message has finished (`Ingest.IngestStore.Run`).

The evidence verifier accepts what the selector picked if and only if the window's ids are distinct, for every
configuration that passes validation at load (`src/core/evidence_config.rs:54-59`). The functions themselves also take a
NaN threshold, which validation refuses; there the two do part, and `Evidence.VerifierAcceptsSelection` says exactly on
which hits. A non-finite score or threshold never gets through the graph's JSON channels
(`EvidenceGraph.WorkflowOutcome`).

Two things a reader of the code might not expect: the asynchronous judge task of `ingest_drawer_record` can never be
queued, because every configuration that would route to it also makes the synchronous gate mandatory
(`IngestGates.NeverQueuedAfterGate`); and a `daemon --foreground` command line is recognised whatever words follow.

## Model

| member | source | states |
|---|---|---|
| `IngestGates.SurvivingRejections` | src/daemon.rs:2896-2918 | a rejection reaches the LLM gate if and only if that gate is required and the reason is the below-threshold one; every other rejection is dropped first |
| `IngestGates.RoutedDecisions` | src/ingest/gating.rs:103-133 | exactly which decisions route to the judge, by configuration and reason |
| `IngestGates.NeverQueuedAfterGate` | src/daemon.rs:3041-3085 | no decision that may be stored routes to the asynchronous judge, in any configuration |
| `IngestGates.MonitorSound` | src/daemon.rs:2421-2894 | the one-pass monitor used by the ingest proofs accepts only traces in which model calls are on durable data, gating audits are unique, and writes are unrejected and, if required, judged keep |
| `IngestSpec.RejectedAtOnce` | src/daemon.rs:2455-2480 | with gating on, a tier-1 rejection is expected to be audited and nothing else, unless it is a below-threshold one and the judge is mandatory |
| `IngestSpec.WhoIsAsked` | src/daemon.rs:2482-2597 | no classifier vector is expected for a message tier 1 decided or with tier 2 off, and no judge unless gating and judge are on and one is at hand |
| `Ingest.IngestStore.Ingest` | src/daemon.rs:2421-2894 | one attempt, on any store and for all answers: it goes through the events expected of configuration, message and answers in order, and ends Ok if and only if everything needed on its way succeeds; an Ok attempt past the early return has gone through all of them, written exactly the row they lead to, reports its id and leaves its candidate as it should; a tier-1 rejection or the early return changes nothing; a judge that fails for good releases the own admission; model calls only after row and payload are durable, at most one gating audit, no write after a rejection, without a mandatory keep or after a failed gate step; the raw payload is written exactly when admission is reached; after Ok the rows without a vector are exactly those that were, less what was written and less an own candidate |
| `Ingest.IngestStore.Run` | src/daemon.rs:2421-2894 | for every order of attempts of any number of messages of one identity: every attempt is safe, and a row without a vector belongs to a message whose latest attempt failed, so none is left once all have finished |
| `Ingest.AttemptKeepsConsistent` | src/daemon.rs:2421-2894 | every attempt keeps a bare row alone and owned by a message that is still pending |
| `Ingest.NothingBareExactly` | src/daemon.rs:2421-2894 | an unhindered attempt leaves nothing bare if and only if each bare row it meets is its own to release or is embedded by it |
| `Ingest.DroppedDuplicate` | src/daemon.rs:2693-2717 | a concrete store and message where an Ok return leaves another message's row without a vector |
| `Ingest.IngestStore.Enter` | src/daemon.rs:2427-2480 | early returns: an embedded row on the first try, and a tier-1 rejection that the judge does not get to see, with its audit; neither changes a row, and nothing else stops here unless resolving fails |
| `Ingest.IngestStore.Resolve` | src/core/db.rs:1439-1471 | a live row of the identity if there is one, otherwise an id no row uses |
| `Ingest.IngestStore.Persist` | src/daemon.rs:3155-3171 | success makes the payload durable and the row live, a new one under this message's ownership, and changes no existing row |
| `Ingest.IngestStore.Classify` | src/daemon.rs:2496-2537 | runs exactly where no earlier gate decided; passes on a decision the last gate may see, or stops with a rejected admission released |
| `Ingest.IngestStore.Judge` | src/daemon.rs:2538-2597 | goes on exactly if a judge is at hand, keeps, and audit and verdict are recorded; ends Ok exactly on a rejection that is recorded and released; a failure for good ends the attempt with the own candidate released |
| `Ingest.IngestStore.AuditPlainly` | src/daemon.rs:2598-2608 | without the gate the decision audited before a write is never a rejection |
| `Ingest.IngestStore.Place` | src/daemon.rs:2621-2717 | insert, drop or merge by novelty: Ok exactly if every audit, lock, target and write it needs is there, and then exactly the row the novelty decision names is written, and none on a drop |
| `Ingest.IngestStore.Merge` | src/daemon.rs:2718-2892 | merges into the target or, at the caps or on a failed re-embed, inserts; Ok exactly if the lock, the live target and the writes are there, and then the returned id is the one written |
| `Ingest.IngestStore.MergeInto` | src/core/db_writer_lease_fence.rs:118-149 | goes through only if the target is live with the merge count read before; the target gets count and vector, and the candidate row goes if it is another one this message owns |
| `Ingest.IngestStore.SoftDelete` | src/daemon/admission.rs:18-50 | deletes only a live row this message owns; afterwards the candidate is bare only if it was and belongs to another message |
| `Ingest.IngestStore.StoreVector` | src/daemon.rs:3254-3265 | the candidate gets its vector and loses its owner |
| `RecoveryRequeue.RequeueWorker.RequeueAfterRecovery` | src/daemon.rs:1129-1186 | each service is asked exactly when it is reachable and no answer since its last outage skipped nothing, a failure of one does not hold back the other, the first error is returned |
| `RecoveryRequeue.RequeueWorker.CommitSuccesses` | src/daemon.rs:1066-1081 | a flag is set by a completion, kept while reachable, cleared by an outage |
| `RecoveryRequeue.FlagExactly` | src/daemon.rs:1055-1082 | over every run, a flag is set if and only if a zero-skip requeue completed since the last unreachable tick |
| `RecoveryRequeue.AttemptsInStretch` | src/daemon.rs:1055-1082 | over every run, the requeue is attempted on a tick if and only if the service is reachable and no earlier tick of the stretch had an answer that skips nothing |
| `RecoveryRequeue.OneCompletionPerStretch` | src/daemon.rs:1055-1082 | two completions are separated by an outage |
| `RecoveryRequeue.ServicesAreIndependent` | src/daemon.rs:1056-1081 | what one service does is a function of its own probes alone |
| `RecoveryState.DaemonRecoveryState.RecordFault` | src/daemon_recovery.rs:107-131 | outside a cooldown the fault is appended to the recent ones and the third opens a cooldown of 900 s; during one nothing changes; keeps the shape of reachable states |
| `RecoveryState.DaemonRecoveryState.AdmitStart` | src/daemon_recovery.rs:133-146 | allowed exactly outside an unexpired cooldown, then in a new generation of at least 1 |
| `RecoveryState.DaemonRecoveryState.RecordRecovered` | src/daemon_recovery.rs:148-177 | outside a cooldown the faults left are exactly the recent ones of the current generation, in order; healthy without a last fault exactly when none is left |
| `RecoveryState.DaemonRecoveryState.TakeSnapshot` | src/daemon_recovery.rs:179-193 | on reachable shapes: cooldown, no budget left and time remaining coincide |
| `RecoveryState.DaemonRecoveryState.PruneInPlace` | src/daemon_recovery.rs:195-210 | an expired cooldown resets, an unexpired one is untouched, otherwise exactly the faults out of the window go, in order |
| `RecoveryRuns.ReachableShape` | src/daemon_recovery.rs:107-210 | after any run, clock-monotone or not: exactly three faults and the third's deadline in cooldown, at most two and none otherwise |
| `RecoveryRuns.CooldownIsFrozen` | src/daemon_recovery.rs:107-210 | no operation before the deadline changes anything; admission succeeds from exactly the third fault plus 900 s |
| `RecoveryRuns.PruneAbsorbs` | src/daemon_recovery.rs:195-210 | a later prune absorbs an earlier one |
| `RecoveryRuns.SnapshotsAreInvisible` | src/daemon_recovery.rs:179-210 | deleting all snapshots from a clock-monotone run changes no decision and no later observation |
| `RecoveryRuns.SnapshotPlacementIsIrrelevant` | src/daemon_recovery.rs:179-210 | runs that differ only in snapshots decide alike |
| `RecoveryRuns.RunKeepsTracking` | src/daemon_recovery.rs:107-210 | after every monotone run the state holds the current generation's recent charges, and every generation from 1 on is within budget |
| `RecoveryRuns.BudgetHoldsExactly` | src/daemon_recovery.rs:107-177 | at most three charged faults of one generation in any 600 s window of any monotone run, if and only if the generation is at least 1 and the clock stays below `u64::MAX` |
| `RecoveryRuns.GenerationZeroEscapes` | src/daemon_recovery.rs:148-177 | a run that charges four faults to generation 0 in one second |
| `RecoveryRuns.ClockEndEscapes` | src/daemon_recovery.rs:107-131 | at the clock's last second the saturated deadline lets a fourth fault in, in any generation |
| `RecoveryRuns.BudgetAcrossGenerations` | src/daemon_recovery.rs:107-146 | without a recovery in a 600 s stretch at most three faults are charged over all generations |
| `RecoveryRuns.RecoveryForgives` | src/daemon_recovery.rs:148-177 | after any run and a recovery in a generation that charged nothing, two more faults are allowed, whatever earlier generations charged |
| `RecoveryStore.DaemonRecovery.AdmitStart` | src/daemon_recovery.rs:319-357 | the decision reaches the caller only if the save is acknowledged; a save that fails after the rename still changes the file |
| `RecoveryStore.DaemonRecovery.TakeSnapshot` | src/daemon_recovery.rs:313-317 | reports the pruned state and writes nothing |
| `RecoveryStore.DaemonRecovery.AdmitStartWithCooldownWait` | src/daemon_bootstrap.rs:486-528 | waits at most 900 s; on a reachable state with a clock that does not go back, one wait always suffices; in general the outcome is decided by the deadline |
| `RecoveryStore.DeadlineIsNear` | src/daemon_recovery.rs:107-131 | a reachable cooldown never has more than 900 s left |
| `FaultReporter.Reporter.RecordFaultOnce` | src/daemon_recovery.rs:244-287 | acknowledged exactly if unreported and one of three attempts persists; stops at the first; the flag is restored otherwise |
| `FaultReporter.AcknowledgedAtMostOnce` | src/daemon_recovery.rs:244-287 | in every interleaving of any number of calls: one acknowledgement at most, three attempts per call at most, the flag free exactly when no call holds it |
| `FaultReporter.StepsAreExact` | src/daemon_recovery.rs:244-287 | after any run: a new call gets the flag exactly if nobody holds it, an attempt that persists is acknowledged, the third failure is the last, restoring frees the flag |
| `FaultReporter.UndisturbedCallGoesThrough` | src/daemon_recovery.rs:244-287 | after any run that leaves the flag free, an undisturbed call is acknowledged by its first attempt of three that persists, and otherwise gives the flag back |
| `FaultReporter.AcknowledgementIsFinal` | src/daemon_recovery.rs:244-287 | after an acknowledgement every later call is refused at once |
| `FaultReporter.RunIsExclusive` | src/daemon_recovery.rs:244-287 | at most one call holds the flag, and it is set exactly while one does |
| `FaultReporter.RunAcks` | src/daemon_recovery.rs:244-287 | an acknowledged call exists if and only if exactly one attempt was acknowledged |
| `EndpointPool.SortIsStable` | src/endpoint_pool.rs:100-116 | the pool is a permutation, lower priority number first, configuration order among equals |
| `EndpointPool.OrderIsUnique` | src/endpoint_pool.rs:100-116 | that order leaves no choice |
| `EndpointPool.EndpointPool.constructor` | src/endpoint_pool.rs:100-116 | endpoints in that order, none cooling |
| `EndpointPool.EndpointPool.CheckRemaining` | src/endpoint_pool.rs:195-212 | the time to the deadline while it is ahead; at and after it the cooldown is cleared |
| `EndpointPool.EndpointPool.MarkTemporarilyUnavailable` | src/endpoint_pool.rs:214-230 | the deadline is now plus the delay asked for or, if that is past the last instant, now plus 60 s; no other endpoint changes |
| `EndpointPool.EndpointPool.Route` | src/endpoint_pool.rs:118-180 | the first available endpoint that succeeds or fails fatally decides; else a wait on the first saturated one; else the first retryable failure with the smallest delay; "no endpoint" exactly for an empty pool; a retryable failure that is answered leaves its endpoint cooling until the time of the failure plus the delay asked for; endpoints behind the deciding one untouched; waiting the reported delay after the call always leaves some endpoint out of cooldown, even with the clock moving inside the loop |
| `EndpointPool.EndpointPool.TryOne` | src/endpoint_pool.rs:126-157 | one endpoint decides the call exactly when it is out of cooldown and succeeds or fails fatally; otherwise its delay and its new cooldown |
| `EndpointPool.EndpointPool.TryEach` | src/endpoint_pool.rs:122-158 | the loop: ends at the first deciding endpoint, or gathers first error, smallest delay and first saturated |
| `EndpointRuns.LatestMarkStands` | src/endpoint_pool.rs:194-241 | without clearing on success an endpoint's cooldown is its latest mark until that deadline |
| `EndpointRuns.MarkHoldsUntil` | src/endpoint_pool.rs:195-230 | if successes do not clear: after a mark at time t asking for d that fits, and until a later mark of the endpoint, a check of it lets its call through exactly from t + d on |
| `EndpointRuns.UnmarkedIsOpen` | src/endpoint_pool.rs:195-212 | in every interleaving a check of an endpoint that was never marked lets its call through |
| `EndpointRuns.CallsEndForAReason` | src/endpoint_pool.rs:118-180 | over all interleavings, a call ends undecided only after it checked every endpoint and found none saturated, and waits only after it checked every endpoint, on the first it found saturated |
| `EndpointRuns.CooldownsRespectedExactly` | src/endpoint_pool.rs:118-180 | over all interleavings no call passes before the latest mark's deadline, if and only if cooldowns are not cleared on success |
| `EndpointRuns.ClearingBreaks` | src/endpoint_pool.rs:278-280 | with clearing, an older success wipes a newer cooldown and a third call gets through |
| `ApplyProtocol.RunKeepsInv` | src/historical_rejudge_apply_execution.rs:178-338 | in every interleaving, every generation read or acquired equals its start plus the acquisitions logged before it |
| `ApplyProtocol.FenceCheckIsExact` | src/historical_rejudge_apply_execution.rs:126-145 | after any run, the fence check makes the process one that may mutate if and only if the generation is below `u64::MAX`, the schema is the receipt's, and neither lease was acquired since the receipt's reading except by itself |
| `ApplyProtocol.BindingCheckIsExact` | src/historical_rejudge_apply_execution.rs:178-213 | after any run, the binding check leaves the process bound if and only if schema and both generations read are the receipt's |
| `ApplyProtocol.UndisturbedApplyGoesThrough` | src/historical_rejudge_apply_execution.rs:178-308 | from any run's end, a dry run and an apply that nobody disturbs are possible step by step and end in authorised mutation |
| `ApplyProtocol.AuthorisedMeansUndisturbed` | src/historical_rejudge_apply_execution.rs:178-308 | an authorised apply's acquisition is logged and no lease of either name was acquired between the receipt's reading and it |
| `ApplyProtocol.OneReceiptOneMutation` | src/historical_rejudge_apply_execution.rs:178-308 | in every interleaving, applies with the same receipt fence reach mutation at most once |
| `ApplyReport.ReadReceipt` | src/historical_rejudge_apply_execution.rs:3-58 | accepts exactly dry-run receipts with provenance whose count equations hold over unbounded integers; overflow is reported exactly if one of the sums does not fit |
| `ApplyReport.PlanCounts` | src/historical_rejudge_apply_plan.rs:124-225 | each counter is the number of lines with that finding, and the report balances |
| `ApplyReport.Report.Reconcile` | src/historical_rejudge_apply_execution.rs:147-170 | rows that vanished move from matched to skipped, with wrap-around additions; on a balanced report the equations are preserved and the totals conserved; more mutations than matches are refused |
| `ApplyReport.BalancedSkipsFit` | src/historical_rejudge_apply_execution.rs:163-167 | on a balanced report the unchecked additions never overflow |
| `Evidence.SelectQualityEvidence` | src/evidence_workflow.rs:368-392 | the loop computes the greedy selection over the first `input_top_k` hits |
| `Evidence.ValidityMeans` | src/evidence_workflow.rs:439-448 | a citation is valid exactly if id, URI, scope and kind each have a character that is not white space, the quote is not empty, the span is its whole UTF-8 encoding, and the hash is the quote's |
| `Evidence.WhitespaceIs` | src/evidence_workflow.rs:439-448 | the characters that trimming removes: the 25 with the Unicode property White_Space |
| `Evidence.ScoresCompare` | src/evidence_workflow.rs:368-429 | how scores compare, including NaN and the infinities |
| `Evidence.PassedOverForAReason` | src/evidence_workflow.rs:368-392 | a hit is appended if and only if it is eligible, no earlier eligible hit has its id and both budgets have room; otherwise the selection is unchanged |
| `Evidence.SelectionIsTheTaken` | src/evidence_workflow.rs:368-392 | the selection holds exactly the hits to be taken, so every missing hit is ineligible, repeats an id or did not fit |
| `Evidence.SeenExactly` | src/evidence_workflow.rs:368-392 | while there is room, the considered ids are exactly those of the eligible hits so far |
| `Evidence.NothingSelectedExactly` | src/evidence_workflow.rs:368-392 | with distinct ids nothing is selected if and only if no item may be or no hit is eligible and affordable |
| `Evidence.PickIsWell` | src/evidence_workflow.rs:368-392 | any selection consists of distinct verbatim copies within both budgets |
| `Evidence.VerifySelectedEvidence` | src/evidence_workflow.rs:395-437 | accepts exactly sound, id-distinct verbatim copies from an unambiguous window within both budgets |
| `Evidence.IndexById` | src/evidence_workflow.rs:400-405 | the window by id, or nothing when an id repeats |
| `Evidence.CheckItem` | src/evidence_workflow.rs:409-429 | an item passes if and only if it is sound and a verbatim copy of some window hit |
| `Evidence.VerifierAcceptsSelection` | src/evidence_workflow.rs:368-448 | the verifier accepts the selector's output if and only if window ids are distinct and, for a NaN threshold, the output limit is zero or no window hit is eligible and affordable |
| `Evidence.ValidatedSelectionIsAccepted` | src/core/evidence_config.rs:38-59 | for every configuration that validates, if and only if window ids are distinct |
| `Evidence.NaNThresholdPartsThem` | src/evidence_workflow.rs:368-437 | a NaN configuration and a hit that is selected and then refused |
| `EvidenceGraph.WorkflowOutcome` | src/evidence_workflow.rs:205-365 | gated evidence exactly when enabled, finite, selected and unambiguous; otherwise the pack's items are verbatim copies of the window hits at exactly the positions with a valid citation, in order, with the matching reason; counts and compression agree with the items, and selected tokens never exceed raw ones |
| `EvidenceGraph.ValidItemsByPosition` | src/evidence_workflow.rs:450-504 | the raw items are copies of the hits at a strictly increasing sequence of positions, which holds exactly the positions of valid hits |
| `EvidenceGraph.WorkflowPack` | src/evidence_workflow.rs:205-365 | running the graph gives the pack of the selection if enabled, finite, selected and unambiguous, and else the pack of the valid window hits with the first reason that applies |
| `EvidenceGraph.EnabledRun` | src/evidence_workflow.rs:248-356 | the enabled path of the graph ends in the gated pack or the raw pack with its reason |
| `EvidenceGraph.ShortRun` | src/evidence_workflow.rs:248-356 | disabled runs end in the raw pack; unreadable channels end in an error |
| `EvidenceGraph.ValidItemsAreNotLarger` | src/evidence_workflow.rs:450-504 | the raw pack's items never have more tokens than its hits |
| `EvidenceGraph.SelectionIsNotLarger` | src/evidence_workflow.rs:368-392 | nor does the selection |
| `FlatAssembly.Assembler.AssembleFlat` | src/context.rs:575-718 | the nested loops with shared counters, breaks and early errors produce exactly the sections of the flat reference, which are a faithful context; they fail only where a planned query fails or offers what does not load |
| `FlatAssembly.Assembler.AskSlot` | src/context.rs:588-679 | one tier's searches and cards, or the evidence searches, equal asking the reference's queries for it, stopping when a budget is spent |
| `FlatAssembly.Assembler.AskAnchor` | src/context.rs:982-1023 | for one anchor the status loop, for searches and for cards, equals asking its queries in order |
| `FlatAssembly.Assembler.AskAll` | src/context.rs:605-639 | the anchor and status loops equal asking the flat list of queries |
| `FlatAssembly.Assembler.TakeAll` | src/context.rs:627-637 | the candidate loop equals offering every candidate to the admission rule |
| `ContextAssembly.AssemblyFits` | src/context.rs:588-718 | for every database: at most `max_items` items, at most `dao_tian_limit` in the first tier, no repeated seen key |
| `ContextLaws.AssemblyIsFaithful` | src/context.rs:575-718 | for every database: every item was offered for one of the anchors by a query of its section and loads; a planned query's candidates are missing only if the section or the context is full or an item with the same key is there; budgets, distinct keys, non-empty sections in tier order; a failure has a cause |
| `ContextLaws.PlanCovers` | src/context.rs:588-679 | the queries asked are exactly canonical and promoted ones of every tier and anchor, of cards if wanted, and evidence ones if wanted |
| `ContextLaws.TierOrder` | src/context.rs:588-679 | in a tier: anchor by anchor, canonical before promoted, drawers before cards |
| `ContextLaws.PicksComeFromQueries` | src/context.rs:604-639 | every pick was offered by a query of its slot, for that query's anchor, and loads |
| `ContextLaws.FailureHasACause` | src/context.rs:588-679 | an assembly fails only if a query fails or offers a candidate that does not load |
| `ContextAssembly.PicksFit` | src/context.rs:588-718 | the same for every query plan in tier order, and the items come in that order |
| `ContextAssembly.EveryQueryIsServed` | src/context.rs:604-639 | a candidate offered in a successful assembly is missing only if its key was taken or its tier's budget is spent |
| `ContextAssembly.FlattenSections` | src/context.rs:640-718 | the sections flatten to the picks in order: none lost, none doubled |
| `ForesightPrepend.ContextSections.PrependDueForesight` | src/context.rs:1048-1131 | the foresights that are due first, then the trimmed rest, and the tokens they use; a failure has a cause and changes nothing |
| `ForesightPrepend.GatherAll` | src/context.rs:1067-1106 | the anchor loop with its breaks equals gathering one foresight after the other |
| `ForesightPrepend.GatherDue` | src/context.rs:1085-1102 | so does the inner loop, skipping what does not fit the token budget |
| `ForesightPrepend.ContextSections.TrimToItemCap` | src/context.rs:1133-1144 | cuts every section where the cap falls and drops empty ones |
| `ForesightPrepend.ContextSections.RemoveIds` | src/context.rs:1112-1120 | the removal pass removes nothing |
| `ForesightPrepend.DedupAnchors` | src/context.rs:906-917 | the anchors at exactly the positions without an earlier one of the same kind and id, in order |
| `ForesightPrepend.DedupKeepsKeysOnce` | src/context.rs:906-917 | every anchor key survives, once |
| `ForesightSection.GatherIsWell` | src/context.rs:1054-1106 | at most five foresights within the cap, ids distinct and new, the token budget spent exactly and never exceeded |
| `ForesightLaws.GatherFindsDue` | src/context.rs:1054-1106 | the foresights gathered are listed ones that load, in listing order; one that is listed is left out only if it is there already, the cap of five or the room is reached, or a listing of it costs more than the tokens left; gathering fails only if a listing fails or lists what does not load |
| `ForesightLaws.TrimCutsOnce` | src/context.rs:1133-1144 | trimming leaves sections whole up to one cut, with their names, and the cut is where the cap falls |
| `ForesightLaws.PrependKeepsNames` | src/context.rs:1108-1130 | after the foresights come the non-empty sections up to one cut, under their own names |
| `ForesightSection.TrimIsPrefix` | src/context.rs:1133-1144 | trimming keeps exactly the first `max_items` items, in order |
| `ForesightSection.RemovalIsIdle` | src/context.rs:1112-1120 | ids that avoid those present remove nothing from any section |
| `ForesightSection.PrependIsPrefix` | src/context.rs:1108-1130 | the result is the foresights followed by an exact prefix of what was there, within the cap |
| `ForesightSection.FlatContext` | src/context.rs:575-728 | for every database, a whole flat context has at most `max_items` items: distinct new foresights, then an exact prefix of the assembly |
| `HolderTermination.ProcessOps.TerminateTargets` | src/daemon_bootstrap.rs:693-754 | whatever the process table answers: every signal goes to a target and follows at once on an inspection that shows it, every kill on a running check after a SIGTERM and the whole grace period, no target is forgotten, and the outcome is an exact account; for distinct pids a target seen stopped or unreadable is never killed and one that mismatched at SIGTERM is sent neither signal |
| `HolderTermination.ProcessOps.SignalMatchingHolder` | src/daemon_bootstrap.rs:757-781 | one inspection, and a signal exactly when it shows this very target |
| `HolderTermination.ProcessOps.TermAll` | src/daemon_bootstrap.rs:702-716 | after the SIGTERM round every target did not match or waits; for distinct pids none that did not match was signalled |
| `HolderTermination.ProcessOps.KeepRunning` | src/daemon_bootstrap.rs:720-731 | one poll keeps only targets seen running; the others were seen gone |
| `HolderTermination.ProcessOps.KillAll` | src/daemon_bootstrap.rs:739-751 | every remaining target is seen gone, found not to match, or sent SIGKILL |
| `HolderPlan.TargetKnowsItsHolder` | src/process_diagnostics.rs:129-166 | a later sighting passes for a holder if and only if it is stale, has all its files open and otherwise makes the same target |
| `HolderPlan.PlanRemediation` | src/process_diagnostics.rs:187-220 | one target for each pid with a stale holder, made of the first of them, by ascending pid; all other holders are left to the operator, sorted by pid and otherwise in order |
| `HolderPlan.PlanIsSound` | src/process_diagnostics.rs:187-220 | planned pids are distinct and exactly those of stale holders, and the plan's own report shows every target |
| `HolderPlan.Remediate` | src/daemon_bootstrap.rs:581-598 | planning and terminating together: all guarantees of termination hold without condition, only processes shown to be stale by the plan's report and again just before the signal are signalled, and no stale holder is forgotten |
| `Utf8.DecodeInvertsEncode` | src/daemon_singleton.rs:434-439 | the strict decoder accepts exactly the encodings and returns what was encoded |
| `Utf8.EncodedLayout` | src/daemon_singleton.rs:434-439 | the bytes of a character by their bit patterns, from one to four |
| `Utf8.ByteLenIsEncoded` | src/evidence_workflow.rs:439-448 | the byte length of a text is the length of its encoding |
| `DaemonArgv.CmdlineRoundTrip` | src/daemon_singleton.rs:434-439 | parsing the NUL-terminated layout returns the argv without its empty arguments |
| `DaemonArgv.FirstCliSubcommand` | src/daemon_singleton.rs:478-498 | the index loop finds the word after flags, their values and `--` |
| `DaemonArgv.CheckDaemonArgv` | src/daemon_singleton.rs:449-476 | the indexed checks accept exactly the command lines of the grammar |
| `DaemonArgv.GlobalFlagsAreTransparent` | src/daemon_singleton.rs:449-506 | inserting any complete global flags after the program never changes the answer |
| `DaemonArgv.DaemonArgvGrammar` | src/daemon_singleton.rs:449-506 | recognised exactly if the path ends in the binary's name and the words are complete global flags, an optional `--` and one of five daemon forms |
| `DaemonArgv.FileNameExactly` | src/daemon_singleton.rs:449-458 | the base name is `name` if and only if the path is a prefix up to a slash, the name, and nothing but slashes and lone dots |
| `DaemonArgv.PlanDaemonReap` | src/daemon_singleton.rs:519-533 | keeps the live pidfile process or the lowest pid, and targets every other candidate once, in order |
| `DaemonArgv.ReplanningIsStable` | src/daemon_singleton.rs:519-533 | planning again after some targets are gone keeps the same process and targets exactly the survivors |

## Left out

- Ingest.IngestStore.Run: attempts of several messages follow each other in any order; the single steps of two attempts running at once are not interleaved.
- Ingest.IngestStore.Ingest: on an error return a row without a vector may stay; `Run` says whose it is, and the next attempt of that message takes it up.
- Ingest.IngestStore.MergeInto: merged content and vectors are not modelled, only which rows have them; deleting a candidate row leaves a vector stored under its id, as the delete does.
- ApplyProtocol.OneReceiptOneMutation: leases may be held by several processes at once, which allows more interleavings than the database does; expiry and release are not modelled.
- EndpointPool.EndpointPool.Route: a mark needs a deadline: where neither the delay nor the 60 s hint fits below the last representable instant the source's addition panics.
- HolderTermination.ProcessOps.TerminateTargets: the grace clock is a number of polls.
- EvidenceGraph.WorkflowOutcome: token sums are unbounded and the compression ratio is a real number; the build without the graph feature is not modelled.
- The text of items, audits, verdict rows, prompts and log lines; only what decides control flow and storage is kept.
- The tiered context path and `search_t2_hybrid`: they build the section list by token budget instead, and call the same foresight step; what is proved of that step holds for any sections it is given, and the item cap is not claimed for the tiered path, which trims only when foresights exist.
- Recurring themes, repair warnings, skills and distill suggestions, which are loaded beside the sections.
- SQL, file locking, the write reserve, daemonising, signals and `/proc` scanning, which enter as atomic steps or answers.
- Queue internals, lease acquisition, novelty scoring, the classifier's arithmetic and tier 1's rules, which enter as answers.
- Which process holds the pidfile, the lock files and their metadata.
- HTTP probing: the scheduler and the requeue worker take what a probe or a call answers as given, whatever it is.
- Doctor reports, analytics, briefs, benchmarks, the command-line front end and crystallisation: they read the store or print, and no modelled step depends on them.
