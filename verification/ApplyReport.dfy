/** The count report of a historical rejudge apply: planned, saved as a receipt, read back and reconciled
    (`src/historical_rejudge_apply_plan.rs`, `src/historical_rejudge_apply_execution.rs`). */
module ApplyReport {
  import opened Prelude

  /** `usize` on the supported 64-bit targets. */
  type usize = u64

  datatype Counts = Counts(
    confirmation: usize, keep: usize, delete: usize,
    matched: usize, stale: usize,
    occMissingCurrent: usize, occContentHashMismatch: usize, occRetentionSnapshotMismatch: usize, occOtherSkip: usize,
    skipped: usize, mutated: usize)

  /** `hashes` holds the provenance strings other than the generation id. */
  datatype Receipt = Receipt(
    schemaVersion: string, dryRun: bool, backupPath: Option<string>, backupFormat: Option<string>,
    generationId: Option<string>, hashes: seq<string>, counts: Counts)

  datatype Refusal = UnsupportedSchema | NotADryRun | MissingProvenance | CountsOverflow | CountsDoNotReconcile

  /** The count equations, over unbounded integers. */
  predicate Balanced(c: Counts) {
    && c.keep + c.delete == c.confirmation
    && c.occMissingCurrent + c.occContentHashMismatch + c.occRetentionSnapshotMismatch + c.occOtherSkip == c.stale
    && c.skipped == c.stale
    && c.matched + c.stale == c.delete
  }

  /** One of the three sums does not fit the counters' type. */
  predicate SumsOverflow(c: Counts) {
    || c.keep + c.delete > U64_MAX
    || c.occMissingCurrent + c.occContentHashMismatch + c.occRetentionSnapshotMismatch + c.occOtherSkip > U64_MAX
    || c.matched + c.stale > U64_MAX
  }

  function CheckedAdd(a: Option<usize>, b: usize): Option<usize> {
    if a.Some? && a.value + b <= U64_MAX then Some(a.value + b) else None
  }

  /** `read_historical_rejudge_apply_receipt` after parsing: the checked `usize` sums accept exactly the
      receipts whose equations hold over unbounded integers. */
  method ReadReceipt(r: Receipt, supportedSchema: string) returns (refusal: Option<Refusal>)
    ensures refusal.None? <==>
              && r.schemaVersion == supportedSchema
              && r.dryRun && r.backupPath.None? && r.backupFormat.None? && r.counts.mutated == 0
              && r.generationId.Some? && r.generationId.value != "" && "" !in r.hashes
              && Balanced(r.counts)
    ensures refusal == Some(UnsupportedSchema) <==> r.schemaVersion != supportedSchema
    ensures refusal == Some(NotADryRun) <==>
              && r.schemaVersion == supportedSchema
              && (!r.dryRun || r.backupPath.Some? || r.backupFormat.Some? || r.counts.mutated != 0)
    ensures refusal == Some(CountsOverflow) || refusal == Some(CountsDoNotReconcile) ==> !Balanced(r.counts)
    ensures refusal == Some(CountsOverflow) || refusal == Some(CountsDoNotReconcile) ==>
              (refusal == Some(CountsOverflow) <==> SumsOverflow(r.counts))
  {
    if r.schemaVersion != supportedSchema {
      return Some(UnsupportedSchema);
    }
    if !r.dryRun || r.backupPath.Some? || r.backupFormat.Some? || r.counts.mutated != 0 {
      return Some(NotADryRun);
    }
    if r.generationId.None? || r.generationId.value == "" || "" in r.hashes {
      return Some(MissingProvenance);
    }
    var c := r.counts;
    var decisions := CheckedAdd(Some(c.keep), c.delete);
    if decisions.None? {
      return Some(CountsOverflow);
    }
    var skips := CheckedAdd(CheckedAdd(CheckedAdd(Some(c.occMissingCurrent), c.occContentHashMismatch),
                                       c.occRetentionSnapshotMismatch), c.occOtherSkip);
    if skips.None? {
      return Some(CountsOverflow);
    }
    var deletes := CheckedAdd(Some(c.matched), c.stale);
    if deletes.None? {
      return Some(CountsOverflow);
    }
    if decisions.value != c.confirmation || skips.value != c.stale || c.skipped != c.stale
       || deletes.value != c.delete
    {
      return Some(CountsDoNotReconcile);
    }
    return None;
  }

  /** What planning finds for one confirmation line. */
  datatype Finding = Keep | MissingCurrent | ContentHashMismatch | RetentionSnapshotMismatch | OtherSkip | Match

  function Is(f: Finding): Finding -> bool {
    (x: Finding) => x == f
  }

  function Tally(fs: seq<Finding>, f: Finding): nat {
    |Filter(fs, Is(f))|
  }

  lemma TallyNext(fs: seq<Finding>, i: nat)
    requires i < |fs|
    ensures forall f: Finding :: Tally(fs[..i + 1], f) == Tally(fs[..i], f) + if fs[i] == f then 1 else 0
  {
    forall f: Finding ensures Tally(fs[..i + 1], f) == Tally(fs[..i], f) + if fs[i] == f then 1 else 0 {
      assert fs[..i + 1] == fs[..i] + [fs[i]];
      FilterAppend(fs[..i], fs[i], Is(f));
    }
  }

  /** The counting loop of `plan_historical_rejudge_apply`: each counter is the number of lines with that
      finding, and the report it builds balances. */
  method PlanCounts(fs: seq<Finding>) returns (c: Counts)
    requires |fs| <= U64_MAX
    ensures Balanced(c) && c.mutated == 0 && c.confirmation == |fs|
    ensures c.keep == Tally(fs, Keep) && c.matched == Tally(fs, Match)
    ensures c.occMissingCurrent == Tally(fs, MissingCurrent)
    ensures c.occContentHashMismatch == Tally(fs, ContentHashMismatch)
    ensures c.occRetentionSnapshotMismatch == Tally(fs, RetentionSnapshotMismatch)
    ensures c.occOtherSkip == Tally(fs, OtherSkip)
  {
    c := Counts(|fs|, 0, 0, 0, 0, 0, 0, 0, 0, 0, 0);
    for i := 0 to |fs|
      invariant c.keep + c.delete == i && c.confirmation == |fs|
      invariant c.stale == c.skipped == c.mutated == 0
      invariant c.delete == c.matched + c.occMissingCurrent + c.occContentHashMismatch
                            + c.occRetentionSnapshotMismatch + c.occOtherSkip
      invariant c.keep == Tally(fs[..i], Keep) && c.matched == Tally(fs[..i], Match)
      invariant c.occMissingCurrent == Tally(fs[..i], MissingCurrent)
      invariant c.occContentHashMismatch == Tally(fs[..i], ContentHashMismatch)
      invariant c.occRetentionSnapshotMismatch == Tally(fs[..i], RetentionSnapshotMismatch)
      invariant c.occOtherSkip == Tally(fs[..i], OtherSkip)
    {
      TallyNext(fs, i);
      match fs[i]
      case Keep => c := c.(keep := c.keep + 1);
      case MissingCurrent => c := c.(delete := c.delete + 1, occMissingCurrent := c.occMissingCurrent + 1);
      case ContentHashMismatch =>
        c := c.(delete := c.delete + 1, occContentHashMismatch := c.occContentHashMismatch + 1);
      case RetentionSnapshotMismatch =>
        c := c.(delete := c.delete + 1, occRetentionSnapshotMismatch := c.occRetentionSnapshotMismatch + 1);
      case OtherSkip => c := c.(delete := c.delete + 1, occOtherSkip := c.occOtherSkip + 1);
      case Match => c := c.(delete := c.delete + 1, matched := c.matched + 1);
    }
    assert fs[..|fs|] == fs;
    var stale := c.occMissingCurrent + c.occContentHashMismatch + c.occRetentionSnapshotMismatch + c.occOtherSkip;
    c := c.(stale := stale, skipped := stale);
  }

  function WrappingAdd(a: usize, b: usize): usize {
    if a + b <= U64_MAX then a + b else a + b - U64_MAX - 1
  }

  /** Addition modulo 2^64: the sum or, where that does not fit, the sum less 2^64. */
  predicate AddsModulo(a: usize, b: usize, sum: usize) {
    sum == a + b || sum == a + b - 0x1_0000_0000_0000_0000
  }

  /** `late` more skips fit their counters. */
  predicate SkipsFit(c: Counts, late: nat) {
    c.occOtherSkip + late <= U64_MAX && c.stale + late <= U64_MAX && c.skipped + late <= U64_MAX
  }

  /** On a balanced report no reconciliation overflows. */
  lemma BalancedSkipsFit(c: Counts, late: nat)
    requires Balanced(c) && late <= c.matched
    ensures SkipsFit(c, late)
  {
  }

  class Report {
    var dryRun: bool
    var counts: Counts

    constructor (counts: Counts)
      ensures this.counts == counts && dryRun
    {
      this.counts := counts;
      dryRun := true;
    }

    /** `reconcile_historical_rejudge_apply_execution`: rows that vanished between planning and deletion
        move from matched to skipped. The equations that held still hold, exactly the deleted rows stay
        matched, and nothing is lost from the delete total. The unchecked additions wrap around, as in a release
        build; on a balanced report they never do. */
    method Reconcile(execute: bool, mutated: usize) returns (ok: bool)
      modifies this
      ensures ok <==> if execute then mutated <= old(counts).matched else mutated == 0
      ensures !ok ==> counts == old(counts) && dryRun == old(dryRun)
      ensures ok ==> (old(Balanced(counts)) ==> Balanced(counts)) && counts.mutated == mutated && dryRun == !execute
      ensures ok ==> counts.confirmation == old(counts).confirmation && counts.keep == old(counts).keep
                     && counts.delete == old(counts).delete
      ensures ok && execute ==> counts.matched == mutated
      ensures ok && execute ==>
                var late := old(counts).matched - mutated;
                && AddsModulo(old(counts).occOtherSkip, late, counts.occOtherSkip)
                && AddsModulo(old(counts).stale, late, counts.stale)
                && AddsModulo(old(counts).skipped, late, counts.skipped)
      ensures ok && execute && old(Balanced(counts)) ==>
                counts.occOtherSkip - old(counts).occOtherSkip == old(counts).matched - mutated
      ensures ok && !execute ==> counts == old(counts).(mutated := 0)
    {
      if !execute && mutated != 0 {
        return false;
      }
      var late := 0;
      if execute {
        if counts.matched < mutated {
          return false;
        }
        late := counts.matched - mutated;
      }
      if Balanced(counts) {
        BalancedSkipsFit(counts, late);
      }
      counts := counts.(
        matched := counts.matched - late,
        occOtherSkip := WrappingAdd(counts.occOtherSkip, late),
        stale := WrappingAdd(counts.stale, late),
        skipped := WrappingAdd(counts.skipped, late),
        mutated := mutated);
      dryRun := !execute;
      return true;
    }
  }
}
