/** Requeueing failed model tasks when an endpoint comes back (`src/daemon.rs`): an edge-triggered worker that keeps
    trying on every tick until one requeue skips nothing, separately for the embedding and the LLM endpoint. */
module RecoveryRequeue {
  import opened Prelude

  /** What the store answers when asked to requeue one service's failed tasks. */
  datatype Answer = Requeued(requeued: nat, skipped: nat) | StoreError(message: string)

  /** One service at one tick: whether its endpoint is reachable, and what a requeue would answer. */
  datatype Probe = Probe(reachable: bool, answer: Answer)

  datatype Tick = Tick(embedding: Probe, llm: Probe)
  datatype Service = Embedding | Llm
  datatype Plan = Plan(embedding: bool, llm: bool)
  datatype Result = Ok(plan: Plan) | Err(message: string)

  function Of(t: Tick, s: Service): Probe {
    match s
    case Embedding => t.embedding
    case Llm => t.llm
  }

  // --- One service's flag, tick by tick ---

  function Flag(history: seq<Tick>, s: Service): bool {
    if history == [] then false else
      var p := Of(history[|history| - 1], s);
      p.reachable && (Flag(history[..|history| - 1], s) || (p.answer.Requeued? && p.answer.skipped == 0))
  }

  predicate Attempted(history: seq<Tick>, n: nat, s: Service)
    requires n < |history|
  {
    Of(history[n], s).reachable && !Flag(history[..n], s)
  }

  predicate Completed(history: seq<Tick>, n: nat, s: Service)
    requires n < |history|
  {
    var p := Of(history[n], s);
    Attempted(history, n, s) && p.answer.Requeued? && p.answer.skipped == 0
  }

  /** The service was reachable at every tick from `from` up to `to`. */
  predicate ReachableThroughout(history: seq<Tick>, from: nat, to: nat, s: Service)
    requires to <= |history|
  {
    forall j :: from <= j < to ==> Of(history[j], s).reachable
  }

  ghost predicate CompletedSince(history: seq<Tick>, n: nat, s: Service)
    requires n <= |history|
  {
    exists k :: 0 <= k < n && Completed(history, k, s) && ReachableThroughout(history, k, n, s)
  }

  /** The flag is set exactly when a requeue that skipped nothing has completed since the last unreachable tick. */
  lemma {:induction false} FlagExactly(history: seq<Tick>, n: nat, s: Service)
    requires n <= |history|
    ensures Flag(history[..n], s) <==> CompletedSince(history, n, s)
  {
    if n == 0 {
    } else {
      FlagExactly(history, n - 1, s);
      assert history[..n][..n - 1] == history[..n - 1];
      assert history[..n][n - 1] == history[n - 1];
      if Flag(history[..n], s) {
        if Flag(history[..n - 1], s) {
          var k :| 0 <= k < n - 1 && Completed(history, k, s) && ReachableThroughout(history, k, n - 1, s);
          assert ReachableThroughout(history, k, n, s);
        } else {
          assert Completed(history, n - 1, s) && ReachableThroughout(history, n - 1, n, s);
        }
      }
      if CompletedSince(history, n, s) {
        var k :| 0 <= k < n && Completed(history, k, s) && ReachableThroughout(history, k, n, s);
        assert Of(history[n - 1], s).reachable;
        if k < n - 1 {
          assert ReachableThroughout(history, k, n - 1, s);
        }
      }
    }
  }

  /** The service is reachable, and since it became so no tick has found a store that would skip nothing. */
  ghost predicate Owed(history: seq<Tick>, n: nat, s: Service)
    requires n < |history|
  {
    && Of(history[n], s).reachable
    && forall k :: 0 <= k < n && ReachableThroughout(history, k, n, s) ==>
         var answer := Of(history[k], s).answer; answer.Requeued? ==> answer.skipped > 0
  }

  lemma {:induction false} FirstCleanTick(history: seq<Tick>, k: nat, n: nat, s: Service)
    requires k < n <= |history| && ReachableThroughout(history, k, n, s)
    requires Of(history[k], s).answer.Requeued? && Of(history[k], s).answer.skipped == 0
    ensures Flag(history[..n], s)
  {
    assert history[..n][..n - 1] == history[..n - 1] && history[..n][n - 1] == history[n - 1];
    if k < n - 1 {
      FirstCleanTick(history, k, n - 1, s);
    }
  }

  /** In a stretch of reachable ticks the requeue is attempted on every tick up to and with the first answer that skips
      nothing, and on none after it. */
  lemma AttemptsInStretch(history: seq<Tick>, n: nat, s: Service)
    requires n < |history|
    ensures Attempted(history, n, s) <==> Owed(history, n, s)
  {
    FlagExactly(history, n, s);
    forall k | 0 <= k < n && ReachableThroughout(history, k, n, s) && !Flag(history[..n], s)
      ensures Of(history[k], s).answer.Requeued? ==> Of(history[k], s).answer.skipped > 0
    {
      if Of(history[k], s).answer.Requeued? && Of(history[k], s).answer.skipped == 0 {
        FirstCleanTick(history, k, n, s);
      }
    }
  }

  /** Two completed requeues are always separated by an outage. */
  lemma OneCompletionPerStretch(history: seq<Tick>, i: nat, j: nat, s: Service)
    requires i < j < |history| && Completed(history, i, s) && Completed(history, j, s)
    ensures !ReachableThroughout(history, i, j, s)
  {
    FlagExactly(history, j, s);
  }

  /** What one service does never depends on the other: runs that agree on `s` attempt and complete alike. */
  lemma {:induction false} ServicesAreIndependent(a: seq<Tick>, b: seq<Tick>, s: Service)
    requires |a| == |b| && forall i :: 0 <= i < |a| ==> Of(a[i], s) == Of(b[i], s)
    ensures Flag(a, s) == Flag(b, s)
    ensures forall n :: 0 <= n < |a| ==> Attempted(a, n, s) == Attempted(b, n, s)
  {
    if a == [] {
    } else {
      ServicesAreIndependent(a[..|a| - 1], b[..|b| - 1], s);
      forall n | 0 <= n < |a| ensures Attempted(a, n, s) == Attempted(b, n, s) {
        if n < |a| - 1 {
          assert Attempted(a[..|a| - 1], n, s) == Attempted(b[..|b| - 1], n, s);
          assert a[..|a| - 1][..n] == a[..n] && b[..|b| - 1][..n] == b[..n];
        }
      }
    }
  }

  // --- The worker ---

  class RequeueWorker {
    var embeddingReachable: bool
    var llmReachable: bool
    /** Every requeue sent to the store, in order. */
    var calls: seq<Service>
    ghost var history: seq<Tick>

    constructor ()
      ensures Valid() && history == [] && calls == []
    {
      embeddingReachable, llmReachable, calls, history := false, false, [], [];
    }

    ghost predicate Valid()
      reads this
    {
      embeddingReachable == Flag(history, Embedding) && llmReachable == Flag(history, Llm)
    }

    method CommitSuccesses(health: Tick, completed: Plan)
      modifies this`embeddingReachable, this`llmReachable
      ensures embeddingReachable == (health.embedding.reachable && (old(embeddingReachable) || completed.embedding))
      ensures llmReachable == (health.llm.reachable && (old(llmReachable) || completed.llm))
    {
      if health.embedding.reachable {
        embeddingReachable := embeddingReachable || completed.embedding;
      } else {
        embeddingReachable := false;
      }
      if health.llm.reachable {
        llmReachable := llmReachable || completed.llm;
      } else {
        llmReachable := false;
      }
    }

    /** `requeue_failed_model_tasks_after_recovery`: after any run of ticks, each service is asked exactly when it is
        reachable and no answer since its last outage skipped nothing, and a failure of one does not hold back the
        other. */
    method RequeueAfterRecovery(health: Tick) returns (result: Result)
      requires Valid()
      modifies this
      ensures Valid() && history == old(history) + [health]
      ensures var n := old(|history|);
              var embedding, llm := Owed(history, n, Embedding), Owed(history, n, Llm);
              && calls == old(calls) + (if embedding then [Embedding] else []) + (if llm then [Llm] else [])
              && result == (if embedding && health.embedding.answer.StoreError?
                            then Err(health.embedding.answer.message)
                            else if llm && health.llm.answer.StoreError? then Err(health.llm.answer.message)
                            else Ok(Plan(embedding, llm)))
    {
      assert (history + [health])[..|history|] == history;
      var plan := Plan(health.embedding.reachable && !embeddingReachable, health.llm.reachable && !llmReachable);
      history := history + [health];
      AttemptsInStretch(history, |history| - 1, Embedding);
      AttemptsInStretch(history, |history| - 1, Llm);
      if !plan.embedding && !plan.llm {
        CommitSuccesses(health, Plan(false, false));
        return Ok(plan);
      }
      var completed := Plan(false, false);
      var error: Option<string> := None;
      if plan.embedding {
        calls := calls + [Embedding];
        match health.embedding.answer
        case Requeued(_, skipped) => completed := completed.(embedding := skipped == 0);
        case StoreError(message) => error := Some(message);
      }
      if plan.llm {
        calls := calls + [Llm];
        match health.llm.answer
        case Requeued(_, skipped) => completed := completed.(llm := skipped == 0);
        case StoreError(message) => error := if error.Some? then error else Some(message);
      }
      CommitSuccesses(health, completed);
      return if error.Some? then Err(error.value) else Ok(plan);
    }
  }
}
