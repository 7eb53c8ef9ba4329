/** The quality gate over retrieved evidence (`src/evidence_workflow.rs`): a greedy selector and an
    independent verifier of what was selected. */
module Evidence {
  import opened Prelude
  import Utf8

  // --- f32 scores ---

  /** A score up to `to_bits` equality. */
  datatype Score = Finite(value: real, negativeZero: bool) | Infinite(positive: bool) | NaN(payload: nat)

  /** `a >= b`: false as soon as one side is NaN. */
  predicate AtLeast(a: Score, b: Score) {
    match (a, b)
    case (Finite(x, _), Finite(y, _)) => x >= y
    case (NaN(_), _) => false
    case (_, NaN(_)) => false
    case (Infinite(p), _) => p || b == Infinite(false)
    case (Finite(_, _), Infinite(p)) => !p
  }

  /** `a < b`: likewise. */
  predicate Below(a: Score, b: Score) {
    !a.NaN? && !b.NaN? && !AtLeast(a, b)
  }

  /** Comparisons of `f32`: by value between numbers, infinities at the ends, and false whenever NaN takes part. */
  lemma ScoresCompare(a: Score, b: Score)
    ensures a.NaN? || b.NaN? ==> !AtLeast(a, b) && !Below(a, b)
    ensures a.Finite? && b.Finite? ==> (AtLeast(a, b) <==> a.value >= b.value) && (Below(a, b) <==> a.value < b.value)
    ensures !a.NaN? && !b.NaN? ==> AtLeast(a, b) != Below(a, b)
    ensures !b.NaN? ==> AtLeast(Infinite(true), b) && (AtLeast(Infinite(false), b) <==> b == Infinite(false))
    ensures a.Finite? ==> !AtLeast(a, Infinite(true)) && AtLeast(a, Infinite(false))
  {
  }

  // --- Hits and items ---

  datatype ScoreType = Lexical | Vector | Fused | Rerank
  datatype Span = Span(byteStart: nat, byteEnd: nat)

  datatype Hit = Hit(
    hitId: string, sourceUri: string, sourceScope: string, sourceKind: string,
    contentHash: string, exactQuote: string, span: Span, scoreType: ScoreType, score: Score)

  datatype Item = Item(
    hitId: string, sourceUri: string, sourceScope: string, sourceKind: string,
    contentHash: string, exactQuote: string, span: Span, scoreType: ScoreType, score: Score)

  /** `hash` stands for BLAKE3; nothing is assumed about it. */
  datatype Config = Config(
    enabled: bool, inputTopK: nat, outputTopK: nat, maxEvidenceTokens: nat, minimumRelevance: Score,
    hash: string -> string)

  function IntoItem(h: Hit): Item {
    Item(h.hitId, h.sourceUri, h.sourceScope, h.sourceKind, h.contentHash, h.exactQuote, h.span, h.scoreType, h.score)
  }

  /** Every field of the item is the hit's, bit for bit. */
  predicate Verbatim(i: Item, h: Hit) {
    && i.hitId == h.hitId && i.sourceUri == h.sourceUri && i.sourceScope == h.sourceScope
    && i.sourceKind == h.sourceKind && i.contentHash == h.contentHash && i.exactQuote == h.exactQuote
    && i.span == h.span && i.scoreType == h.scoreType && i.score == h.score
  }

  /** `char::is_whitespace`. */
  predicate IsWhitespace(c: char) {
    var n := c as int;
    0x9 <= n <= 0xD || n == 0x20 || n == 0x85 || n == 0xA0 || n == 0x1680 || 0x2000 <= n <= 0x200A
    || n == 0x2028 || n == 0x2029 || n == 0x202F || n == 0x205F || n == 0x3000
  }

  /** The 25 characters with the Unicode property White_Space. */
  lemma WhitespaceIs(c: char)
    ensures IsWhitespace(c) <==>
              c as int in {9, 10, 11, 12, 13, 32, 133, 160, 5760, 8192, 8193, 8194, 8195, 8196, 8197, 8198, 8199, 8200,
                           8201, 8202, 8232, 8233, 8239, 8287, 12288}
  {
  }

  predicate IsBlank(s: string) {
    forall i :: 0 <= i < |s| ==> IsWhitespace(s[i])
  }

  /** `ceil(chars / 2.5)`. */
  function EstimateTokens(s: string): (tokens: nat)
    ensures 2 * |s| <= 5 * tokens < 2 * |s| + 5
  {
    (|s| * 2 + 4) / 5
  }

  function HitTokens(hits: seq<Hit>): nat {
    if hits == [] then 0 else HitTokens(hits[..|hits| - 1]) + EstimateTokens(hits[|hits| - 1].exactQuote)
  }

  function ItemTokens(items: seq<Item>): nat {
    if items == [] then 0 else ItemTokens(items[..|items| - 1]) + EstimateTokens(items[|items| - 1].exactQuote)
  }

  predicate Whole(quote: string, span: Span) {
    span.byteStart == 0 && span.byteEnd == Utf8.ByteLen(quote)
  }

  predicate CitationIsValid(c: Config, h: Hit) {
    && !IsBlank(h.hitId) && !IsBlank(h.sourceUri) && !IsBlank(h.sourceScope) && !IsBlank(h.sourceKind)
    && h.exactQuote != "" && Whole(h.exactQuote, h.span) && h.contentHash == c.hash(h.exactQuote)
  }

  predicate HasText(s: string) {
    exists i :: 0 <= i < |s| && !IsWhitespace(s[i])
  }

  /** A citation is valid exactly if its four names hold some text, its quote is not empty, its span is the quote's
      whole UTF-8 encoding and its hash is the quote's. */
  lemma ValidityMeans(c: Config, h: Hit)
    ensures CitationIsValid(c, h) <==>
              && HasText(h.hitId) && HasText(h.sourceUri) && HasText(h.sourceScope) && HasText(h.sourceKind)
              && |h.exactQuote| > 0 && h.span == Span(0, |Utf8.Encode(h.exactQuote)|)
              && h.contentHash == c.hash(h.exactQuote)
  {
    Utf8.ByteLenIsEncoded(h.exactQuote);
  }

  function Window(c: Config, hits: seq<Hit>): (r: seq<Hit>)
    ensures |r| <= |hits| && r == hits[..|r|]
    ensures if |hits| < c.inputTopK then |r| == |hits| else |r| == c.inputTopK
  {
    if |hits| <= c.inputTopK then hits else hits[..c.inputTopK]
  }

  predicate DistinctIds(hits: seq<Hit>) {
    forall i, j :: 0 <= i < j < |hits| ==> hits[i].hitId != hits[j].hitId
  }

  predicate DistinctItems(items: seq<Item>) {
    forall i, j :: 0 <= i < j < |items| ==> items[i].hitId != items[j].hitId
  }

  // --- The selector ---

  datatype Picked = Picked(items: seq<Item>, used: nat, seen: set<string>)

  function PickOne(c: Config, p: Picked, h: Hit): Picked {
    if |p.items| >= c.outputTopK || !h.score.Finite? || Below(h.score, c.minimumRelevance)
       || !CitationIsValid(c, h) || h.hitId in p.seen
    then p
    else
      var seen := p.seen + {h.hitId};
      var tokens := EstimateTokens(h.exactQuote);
      if p.used + tokens > c.maxEvidenceTokens then p.(seen := seen)
      else Picked(p.items + [IntoItem(h)], p.used + tokens, seen)
  }

  function Pick(c: Config, hits: seq<Hit>): Picked {
    if hits == [] then Picked([], 0, {}) else PickOne(c, Pick(c, hits[..|hits| - 1]), hits[|hits| - 1])
  }

  function Selection(c: Config, hits: seq<Hit>): seq<Item> {
    Pick(c, Window(c, hits)).items
  }

  method SelectQualityEvidence(c: Config, hits: seq<Hit>) returns (selected: seq<Item>)
    ensures selected == Selection(c, hits)
  {
    selected := [];
    var used: nat := 0;
    var seen: set<string> := {};
    var window := Window(c, hits);
    for i := 0 to |window|
      invariant Pick(c, window[..i]) == Picked(selected, used, seen)
    {
      var hit := window[i];
      assert window[..i + 1][..i] == window[..i];
      if |selected| >= c.outputTopK || !hit.score.Finite? || Below(hit.score, c.minimumRelevance)
         || !CitationIsValid(c, hit) {
        continue;
      }
      if hit.hitId in seen {
        continue;
      }
      seen := seen + {hit.hitId};
      var tokens := EstimateTokens(hit.exactQuote);
      if used + tokens > c.maxEvidenceTokens {
        continue;
      }
      used := used + tokens;
      selected := selected + [IntoItem(hit)];
    }
    assert window[..|window|] == window;
  }

  // --- The verifier ---

  /** What the verifier asks of one item on its own. Unlike the selector it allows an empty quote. */
  predicate ItemIsSound(c: Config, i: Item) {
    && i.score.Finite? && AtLeast(i.score, c.minimumRelevance) && Whole(i.exactQuote, i.span)
    && !IsBlank(i.hitId) && !IsBlank(i.sourceUri) && !IsBlank(i.sourceScope) && !IsBlank(i.sourceKind)
    && i.contentHash == c.hash(i.exactQuote)
  }

  /** The item is a verbatim copy of a hit in the list. */
  ghost predicate IsCopyFrom(i: Item, hits: seq<Hit>) {
    exists k :: 0 <= k < |hits| && Verbatim(i, hits[k])
  }

  /** The verifier's meaning, in one place: sound, id-distinct verbatim copies from an unambiguous window,
      within both budgets. */
  ghost predicate Acceptable(c: Config, hits: seq<Hit>, selected: seq<Item>) {
    && DistinctIds(Window(c, hits))
    && |selected| <= c.outputTopK
    && (forall k :: 0 <= k < |selected| ==> ItemIsSound(c, selected[k]) && IsCopyFrom(selected[k], Window(c, hits)))
    && DistinctItems(selected)
    && ItemTokens(selected) <= c.maxEvidenceTokens
  }

  /** `byId` finds exactly the hits of the window, each under its own id. */
  ghost predicate Indexes(byId: map<string, Hit>, window: seq<Hit>) {
    && (forall k :: 0 <= k < |window| ==> window[k].hitId in byId && byId[window[k].hitId] == window[k])
    && (forall id :: id in byId ==> exists k :: 0 <= k < |window| && window[k] == byId[id] && window[k].hitId == id)
  }

  /** `raw_by_id`: the window by id, or None when an id repeats. */
  method IndexById(window: seq<Hit>) returns (byId: Option<map<string, Hit>>)
    ensures byId.Some? <==> DistinctIds(window)
    ensures byId.Some? ==> Indexes(byId.value, window)
  {
    var m: map<string, Hit> := map[];
    for i := 0 to |window|
      invariant DistinctIds(window[..i])
      invariant forall k :: 0 <= k < i ==> window[k].hitId in m && m[window[k].hitId] == window[k]
      invariant forall id :: id in m ==> exists k :: 0 <= k < i && window[k] == m[id] && window[k].hitId == id
    {
      if window[i].hitId in m {
        return None;
      }
      m := m[window[i].hitId := window[i]];
    }
    assert window[..|window|] == window;
    return Some(m);
  }

  /** The closure over one selected item, up to the `seen_ids` test. */
  method CheckItem(c: Config, byId: map<string, Hit>, ghost window: seq<Hit>, item: Item) returns (ok: bool)
    requires Indexes(byId, window)
    ensures ok <==> ItemIsSound(c, item) && IsCopyFrom(item, window)
  {
    if item.hitId !in byId {
      return false;
    }
    var raw := byId[item.hitId];
    ghost var k :| 0 <= k < |window| && window[k] == raw && window[k].hitId == item.hitId;
    assert IsCopyFrom(item, window) <==> Verbatim(item, raw);
    return ItemIsSound(c, item) && item.sourceUri == raw.sourceUri && item.sourceScope == raw.sourceScope
           && item.sourceKind == raw.sourceKind && item.contentHash == raw.contentHash
           && item.exactQuote == raw.exactQuote
           && item.span == raw.span && item.scoreType == raw.scoreType && item.score == raw.score;
  }

  /** `seen_ids`: every item fits and no id comes twice. `fits` is what the closure says of each item. */
  method AllFitOnce(items: seq<Item>, fits: seq<bool>) returns (ok: bool)
    requires |fits| == |items|
    ensures ok <==> (forall k :: 0 <= k < |items| ==> fits[k]) && DistinctItems(items)
  {
    var seen: set<string> := {};
    for i := 0 to |items|
      invariant forall k :: 0 <= k < i ==> fits[k] && items[k].hitId in seen
      invariant forall id :: id in seen ==> exists k :: 0 <= k < i && items[k].hitId == id
      invariant forall j, k :: 0 <= j < k < i ==> items[j].hitId != items[k].hitId
    {
      if !fits[i] || items[i].hitId in seen {
        return false;
      }
      seen := seen + {items[i].hitId};
    }
    return true;
  }

  method VerifySelectedEvidence(c: Config, hits: seq<Hit>, selected: seq<Item>) returns (ok: bool)
    ensures ok <==> Acceptable(c, hits, selected)
  {
    var window := Window(c, hits);
    var index := IndexById(window);
    if index.None? || |selected| > c.outputTopK {
      return false;
    }
    var fits: seq<bool> := [];
    for i := 0 to |selected|
      invariant |fits| == i
      invariant forall k :: 0 <= k < i ==> (fits[k] <==> ItemIsSound(c, selected[k]) && IsCopyFrom(selected[k], window))
    {
      var fit := CheckItem(c, index.value, window, selected[i]);
      fits := fits + [fit];
    }
    var all := AllFitOnce(selected, fits);
    return all && ItemTokens(selected) <= c.maxEvidenceTokens;
  }

  // --- What is selected, over the hits ---

  /** What the selector has built after any number of hits. */
  ghost predicate PickedWell(c: Config, hits: seq<Hit>, p: Picked) {
    && |p.items| <= c.outputTopK
    && p.used == ItemTokens(p.items) <= c.maxEvidenceTokens
    && DistinctItems(p.items)
    && (forall k :: 0 <= k < |p.items| ==> p.items[k].hitId in p.seen && IsCopyFrom(p.items[k], hits))
    && (!c.minimumRelevance.NaN? ==> forall k :: 0 <= k < |p.items| ==> ItemIsSound(c, p.items[k]))
  }

  lemma CopyPersists(i: Item, hits: seq<Hit>, h: Hit)
    requires IsCopyFrom(i, hits)
    ensures IsCopyFrom(i, hits + [h])
  {
    var j :| 0 <= j < |hits| && Verbatim(i, hits[j]);
    assert (hits + [h])[j] == hits[j];
  }

  lemma PickOneWell(c: Config, hits: seq<Hit>, p: Picked, h: Hit)
    requires PickedWell(c, hits, p)
    ensures PickedWell(c, hits + [h], PickOne(c, p, h))
  {
    var q := PickOne(c, p, h);
    forall k | 0 <= k < |p.items| ensures IsCopyFrom(p.items[k], hits + [h]) {
      CopyPersists(p.items[k], hits, h);
    }
    if |q.items| > |p.items| {
      assert q.items[..|p.items|] == p.items;
      assert (hits + [h])[|hits|] == h && Verbatim(IntoItem(h), h);
    }
  }

  lemma {:induction false} PickIsWell(c: Config, hits: seq<Hit>)
    ensures PickedWell(c, hits, Pick(c, hits))
  {
    if hits == [] {
    } else {
      var front := hits[..|hits| - 1];
      PickIsWell(c, front);
      PickOneWell(c, front, Pick(c, front), hits[|hits| - 1]);
      assert hits == front + [hits[|hits| - 1]];
    }
  }

  /** A hit the selector considers at all. */
  predicate Eligible(c: Config, h: Hit) {
    h.score.Finite? && !Below(h.score, c.minimumRelevance) && CitationIsValid(c, h)
  }

  /** Hit `k` is selected: it is eligible, no earlier eligible hit has its id, and what was selected before it leaves
      room in both budgets. */
  predicate Taken(c: Config, hits: seq<Hit>, k: nat)
    requires k < |hits|
  {
    var before := Pick(c, hits[..k]).items;
    && Eligible(c, hits[k])
    && (forall j :: 0 <= j < k && hits[j].hitId == hits[k].hitId ==> !Eligible(c, hits[j]))
    && |before| < c.outputTopK
    && ItemTokens(before) + EstimateTokens(hits[k].exactQuote) <= c.maxEvidenceTokens
  }

  lemma PickNext(c: Config, hits: seq<Hit>, h: Hit)
    ensures Pick(c, hits + [h]) == PickOne(c, Pick(c, hits), h)
  {
    assert (hits + [h])[..|hits|] == hits;
  }

  /** While there is room for more items, the ids considered are exactly those of the eligible hits so far. */
  lemma {:induction false} SeenExactly(c: Config, hits: seq<Hit>, id: string)
    requires |Pick(c, hits).items| < c.outputTopK
    ensures id in Pick(c, hits).seen <==> exists k :: 0 <= k < |hits| && hits[k].hitId == id && Eligible(c, hits[k])
  {
    if hits == [] {
    } else {
      var front, h := hits[..|hits| - 1], hits[|hits| - 1];
      assert hits == front + [h];
      SeenExactly(c, front, id);
      assert forall k :: 0 <= k < |front| ==> hits[k] == front[k];
    }
  }

  /** The selector is greedy in order: after any hits it appends the next one exactly when that one is to be taken, and
      otherwise leaves the selection as it is. */
  lemma PassedOverForAReason(c: Config, hits: seq<Hit>, h: Hit)
    ensures Pick(c, hits + [h]).items ==
            Pick(c, hits).items + (if Taken(c, hits + [h], |hits|) then [IntoItem(h)] else [])
  {
    var all := hits + [h];
    PickIsWell(c, hits);
    PickNext(c, hits, h);
    assert all[..|hits|] == hits && forall k :: 0 <= k < |hits| ==> all[k] == hits[k];
    if |Pick(c, hits).items| < c.outputTopK {
      SeenExactly(c, hits, h.hitId);
    }
  }

  lemma TakenInPrefix(c: Config, hits: seq<Hit>, h: Hit, k: nat)
    requires k < |hits|
    ensures Taken(c, hits + [h], k) == Taken(c, hits, k)
  {
    assert (hits + [h])[..k] == hits[..k] && forall j :: 0 <= j <= k ==> (hits + [h])[j] == hits[j];
  }

  /** A selection holds exactly the hits to be taken: whatever is missing is ineligible, repeats the id of an earlier
      eligible hit, or did not fit a budget when its turn came. */
  lemma {:induction false} SelectionIsTheTaken(c: Config, hits: seq<Hit>, item: Item)
    ensures item in Pick(c, hits).items <==>
              exists k :: 0 <= k < |hits| && Taken(c, hits, k) && item == IntoItem(hits[k])
  {
    if hits == [] {
    } else {
      var front, h := hits[..|hits| - 1], hits[|hits| - 1];
      assert hits == front + [h];
      SelectionIsTheTaken(c, front, item);
      PassedOverForAReason(c, front, h);
      forall k | 0 <= k < |front| ensures Taken(c, hits, k) == Taken(c, front, k) && hits[k] == front[k] {
        TakenInPrefix(c, front, h, k);
      }
    }
  }

  // --- They agree ---

  /** An eligible hit that fits the token budget by itself. */
  predicate Affordable(c: Config, h: Hit) {
    Eligible(c, h) && EstimateTokens(h.exactQuote) <= c.maxEvidenceTokens
  }

  /** With distinct ids nothing is selected exactly when there is no room for an item or nothing to put in it. */
  lemma {:induction false} NothingSelectedExactly(c: Config, hits: seq<Hit>)
    requires DistinctIds(hits)
    ensures Pick(c, hits).items == [] <==>
              c.outputTopK == 0 || forall k :: 0 <= k < |hits| ==> !Affordable(c, hits[k])
  {
    if hits == [] {
    } else {
      var front, h := hits[..|hits| - 1], hits[|hits| - 1];
      assert hits == front + [h];
      NothingSelectedExactly(c, front);
      PassedOverForAReason(c, front, h);
      assert forall k :: 0 <= k < |front| ==> hits[k] == front[k];
      assert hits[|front|] == h && hits[..|front|] == front;
    }
  }

  /** For every configuration and hit list, the verifier accepts what the selector picked if and only if the ids in the
      window are distinct, unless the threshold is NaN. Then the selector lets every finite score past it and the
      verifier none, so acceptance also needs a window that gives the selector nothing it could afford. */
  lemma VerifierAcceptsSelection(c: Config, hits: seq<Hit>)
    ensures var window := Window(c, hits);
            Acceptable(c, hits, Selection(c, hits)) <==>
              && DistinctIds(window)
              && (c.minimumRelevance.NaN? ==>
                    c.outputTopK == 0 || forall k :: 0 <= k < |window| ==> !Affordable(c, window[k]))
  {
    PickIsWell(c, Window(c, hits));
    var s := Selection(c, hits);
    assert c.minimumRelevance.NaN? && s != [] ==> !ItemIsSound(c, s[0]);
    if DistinctIds(Window(c, hits)) {
      NothingSelectedExactly(c, Window(c, hits));
    }
  }

  /** `EvidenceWorkflowConfig::validate`, as far as it concerns the gate; configurations are loaded through it. */
  predicate Validates(c: Config) {
    && c.inputTopK > 0 && 1 <= c.outputTopK <= c.inputTopK && c.maxEvidenceTokens > 0
    && c.minimumRelevance.Finite? && 0.0 <= c.minimumRelevance.value <= 1.0
  }

  /** On every configuration that loads, distinct window ids are all it takes. */
  lemma ValidatedSelectionIsAccepted(c: Config, hits: seq<Hit>)
    requires Validates(c)
    ensures Acceptable(c, hits, Selection(c, hits)) <==> DistinctIds(Window(c, hits))
  {
    VerifierAcceptsSelection(c, hits);
  }

  /** A NaN threshold does part them: one hit with distinct ids is selected and then refused. */
  lemma NaNThresholdPartsThem(c: Config, h: Hit)
    requires c == Config(true, 1, 1, 1, NaN(0), _ => "hash")
    requires h == Hit("i", "i", "i", "i", "hash", "q", Span(0, 1), Fused, Finite(1.0, false))
    ensures DistinctIds(Window(c, [h])) && Selection(c, [h]) == [IntoItem(h)]
    ensures !Acceptable(c, [h], Selection(c, [h]))
  {
    var window := Window(c, [h]);
    assert "q" == "" + ['q'] && Utf8.ByteLen("q") == 1;
    assert "i"[0] == 'i' && !IsWhitespace('i');
    assert CitationIsValid(c, h);
    assert [] + [h] == [h];
    PickNext(c, [], h);
    assert !ItemIsSound(c, Selection(c, [h])[0]);
  }
}
