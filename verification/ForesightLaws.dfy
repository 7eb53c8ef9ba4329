/** Which due foresights a context gets, said from what is listed for its anchors, and what trimming leaves of the
    rest. */
module ForesightLaws {
  import opened Prelude
  import opened Machine
  import opened ContextAssembly
  import opened ForesightSection
  import E = Evidence

  // --- Where a foresight comes from ---

  /** The foresight is the `place.1`-th listed for anchor `place.0`, and loads. */
  predicate IsAt(list: Listing, cap: nat, anchors: seq<Anchor>, place: (nat, nat), item: Item) {
    && place.0 < |anchors| && list(anchors[place.0], cap).Some?
    && var due := list(anchors[place.0], cap).value;
       place.1 < |due| && due[place.1].loads && due[place.1].item == item
  }

  predicate Before(p: (nat, nat), q: (nat, nat)) {
    p.0 < q.0 || (p.0 == q.0 && p.1 < q.1)
  }

  /** The items stand at these places, in the order they are listed. */
  predicate Located(list: Listing, cap: nat, anchors: seq<Anchor>, items: seq<Item>, places: seq<(nat, nat)>) {
    && |places| == |items|
    && (forall j :: 0 <= j < |items| ==> IsAt(list, cap, anchors, places[j], items[j]))
    && (forall i, j :: 0 <= i < j < |places| ==> Before(places[i], places[j]))
  }

  predicate AllBefore(places: seq<(nat, nat)>, limit: (nat, nat)) {
    forall j :: 0 <= j < |places| ==> Before(places[j], limit)
  }

  lemma LocateOne(
    list: Listing, cap: nat, anchors: seq<Anchor>, g: Gathered, a: nat, k: nat, places: seq<(nat, nat)>)
    returns (next: seq<(nat, nat)>)
    requires Located(list, cap, anchors, g.items, places) && AllBefore(places, (a, k))
    requires a < |anchors| && list(anchors[a], cap).Some? && k < |list(anchors[a], cap).value|
    requires Consider(cap, Some(g), list(anchors[a], cap).value[k]).Some?
    ensures Located(list, cap, anchors, Consider(cap, Some(g), list(anchors[a], cap).value[k]).value.items, next)
    ensures AllBefore(next, (a, k + 1))
  {
    var after := Consider(cap, Some(g), list(anchors[a], cap).value[k]).value;
    next := if after.items == g.items then places else places + [(a, k)];
  }

  lemma {:induction false} LocateDue(
    list: Listing, cap: nat, anchors: seq<Anchor>, g: Gathered, a: nat, n: nat, places: seq<(nat, nat)>)
    returns (next: seq<(nat, nat)>)
    requires Located(list, cap, anchors, g.items, places) && AllBefore(places, (a, 0))
    requires a < |anchors| && list(anchors[a], cap).Some? && n <= |list(anchors[a], cap).value|
    requires Play(Considering(cap), Some(g), list(anchors[a], cap).value[..n]).Some?
    ensures Located(list, cap, anchors, Play(Considering(cap), Some(g), list(anchors[a],
              cap).value[..n]).value.items, next)
    ensures AllBefore(next, (a, n))
  {
    var due := list(anchors[a], cap).value;
    if n == 0 {
      next := places;
    } else {
      assert due[..n][..n - 1] == due[..n - 1];
      next := LocateDue(list, cap, anchors, g, a, n - 1, places);
      next := LocateOne(list, cap, anchors, Play(Considering(cap), Some(g), due[..n - 1]).value, a, n - 1, next);
    }
  }

  /** Visiting the first `n` of the anchors. */
  function Visited(
    list: Listing, cap: nat, anchors: seq<Anchor>, n: nat, taken: set<string>, tokens: Option<nat>): Option<Gathered>
    requires n <= |anchors|
  {
    Play(Visiting(list, cap), Some(Gathered(taken, [], tokens, 0)), anchors[..n])
  }

  lemma VisitedNext(list: Listing, cap: nat, anchors: seq<Anchor>, n: nat, taken: set<string>, tokens: Option<nat>)
    requires n < |anchors|
    ensures Visited(list, cap, anchors, n + 1, taken, tokens) ==
            Visit(list, cap, Visited(list, cap, anchors, n, taken, tokens), anchors[n])
  {
    assert anchors[..n + 1][..n] == anchors[..n];
  }

  /** Every foresight gathered was listed, and they are in the order they are listed. */
  lemma {:induction false} GatheredAreListed(
    list: Listing, cap: nat, anchors: seq<Anchor>, n: nat, taken: set<string>, tokens: Option<nat>)
    returns (places: seq<(nat, nat)>)
    requires n <= |anchors| && Visited(list, cap, anchors, n, taken, tokens).Some?
    ensures Located(list, cap, anchors, Visited(list, cap, anchors, n, taken, tokens).value.items, places)
    ensures AllBefore(places, (n, 0))
  {
    if n == 0 {
      places := [];
    } else {
      VisitedNext(list, cap, anchors, n - 1, taken, tokens);
      var before := Visited(list, cap, anchors, n - 1, taken, tokens).value;
      places := GatheredAreListed(list, cap, anchors, n - 1, taken, tokens);
      if |before.items| < cap {
        var due := list(anchors[n - 1], cap).value;
        assert due[..|due|] == due;
        places := LocateDue(list, cap, anchors, before, n - 1, |due|, places);
      }
    }
  }

  // --- What is left out ---

  ghost predicate Listed(list: Listing, cap: nat, anchors: seq<Anchor>, d: Due) {
    exists anchor :: anchor in anchors && list(anchor, cap).Some? && d in list(anchor, cap).value
  }

  predicate Gathers(items: seq<Item>, id: string) {
    exists j :: 0 <= j < |items| && items[j].drawerId == id
  }

  /** A foresight listed under that id costs more than there is. */
  ghost predicate TooDear(list: Listing, cap: nat, anchors: seq<Anchor>, id: string, left: nat) {
    exists d :: Listed(list, cap, anchors, d) && d.item.drawerId == id && E.EstimateTokens(d.item.text) > left
  }

  /** Why an id need not be considered again. */
  ghost predicate Explained(
    list: Listing, cap: nat, anchors: seq<Anchor>, taken: set<string>, items: seq<Item>, left: Option<nat>, id: string)
  {
    id in taken || Gathers(items, id) || (left.Some? && TooDear(list, cap, anchors, id, left.value))
  }

  ghost predicate SeenExplained(list: Listing, cap: nat, anchors: seq<Anchor>, taken: set<string>, g: Gathered) {
    forall id :: id in g.seen ==> Explained(list, cap, anchors, taken, g.items, g.left, id)
  }

  /** Gathering goes on: more items, more seen, no more tokens. */
  predicate Onward(g: Gathered, next: Gathered) {
    && g.items <= next.items && g.seen <= next.seen && (g.left.None? <==> next.left.None?)
    && (g.left.Some? ==> next.left.value <= g.left.value)
  }

  lemma StillExplained(
    list: Listing, cap: nat, anchors: seq<Anchor>, taken: set<string>, g: Gathered, next: Gathered, id: string)
    requires Onward(g, next) && Explained(list, cap, anchors, taken, g.items, g.left, id)
    ensures Explained(list, cap, anchors, taken, next.items, next.left, id)
  {
    if Gathers(g.items, id) {
      var j :| 0 <= j < |g.items| && g.items[j].drawerId == id;
      assert next.items[j] == g.items[j];
    }
  }

  lemma ConsiderExplains(
    list: Listing, cap: nat, anchors: seq<Anchor>, taken: set<string>, g: Gathered, d: Due)
    requires SeenExplained(list, cap, anchors, taken, g) && Listed(list, cap, anchors, d)
    requires Consider(cap, Some(g), d).Some?
    ensures var next := Consider(cap, Some(g), d).value;
            && SeenExplained(list, cap, anchors, taken, next) && Onward(g, next)
            && (|next.items| >= cap || d.item.drawerId in next.seen)
  {
    var next := Consider(cap, Some(g), d).value;
    forall id | id in next.seen ensures Explained(list, cap, anchors, taken, next.items, next.left, id) {
      if id in g.seen {
        StillExplained(list, cap, anchors, taken, g, next, id);
      } else if |next.items| > |g.items| {
        assert next.items[|g.items|].drawerId == id;
      }
    }
  }

  lemma {:induction false} DueExplained(
    list: Listing, cap: nat, anchors: seq<Anchor>, taken: set<string>, g: Gathered, due: seq<Due>)
    requires SeenExplained(list, cap, anchors, taken, g)
    requires forall d :: d in due ==> Listed(list, cap, anchors, d)
    requires Play(Considering(cap), Some(g), due).Some?
    ensures var next := Play(Considering(cap), Some(g), due).value;
            && SeenExplained(list, cap, anchors, taken, next) && Onward(g, next)
            && (|next.items| >= cap || forall d :: d in due ==> d.item.drawerId in next.seen)
  {
    if |due| == 0 {
    } else {
      var front, last := due[..|due| - 1], due[|due| - 1];
      DueExplained(list, cap, anchors, taken, g, front);
      var middle := Play(Considering(cap), Some(g), front).value;
      ConsiderExplains(list, cap, anchors, taken, middle, last);
      assert due == front + [last];
    }
  }

  predicate Covers(list: Listing, cap: nat, anchors: seq<Anchor>, g: Gathered) {
    |g.items| >= cap ||
    forall anchor :: anchor in anchors ==>
      list(anchor, cap).Some? && forall d :: d in list(anchor, cap).value ==> d.item.drawerId in g.seen
  }

  /** A foresight that is listed is left out only if it is there already, the cap is reached, or it costs too much. */
  lemma {:induction false} ListedAreGathered(
    list: Listing, cap: nat, anchors: seq<Anchor>, n: nat, taken: set<string>, tokens: Option<nat>)
    requires n <= |anchors| && Visited(list, cap, anchors, n, taken, tokens).Some?
    ensures var g := Visited(list, cap, anchors, n, taken, tokens).value;
            SeenExplained(list, cap, anchors, taken, g) && Covers(list, cap, anchors[..n], g)
  {
    if n > 0 {
      VisitedNext(list, cap, anchors, n - 1, taken, tokens);
      ListedAreGathered(list, cap, anchors, n - 1, taken, tokens);
      var before := Visited(list, cap, anchors, n - 1, taken, tokens).value;
      if |before.items| < cap {
        var due := list(anchors[n - 1], cap).value;
        forall d | d in due ensures Listed(list, cap, anchors, d) {
          assert anchors[n - 1] in anchors;
        }
        DueExplained(list, cap, anchors, taken, before, due);
        assert anchors[..n] == anchors[..n - 1] + [anchors[n - 1]];
      }
    }
  }

  // --- Why gathering fails ---

  ghost predicate ListingBreaks(list: Listing, cap: nat, anchor: Anchor) {
    list(anchor, cap).None? || exists d :: d in list(anchor, cap).value && !d.loads
  }

  lemma {:induction false} DueBreaks(cap: nat, g: Gathered, due: seq<Due>)
    requires Play(Considering(cap), Some(g), due) == None
    ensures exists d :: d in due && !d.loads
  {
    if |due| > 0 {
      assert due[|due| - 1] in due;
      if Play(Considering(cap), Some(g), due[..|due| - 1]) == None {
        DueBreaks(cap, g, due[..|due| - 1]);
      }
    }
  }

  lemma {:induction false} GatherBreaks(
    list: Listing, cap: nat, anchors: seq<Anchor>, n: nat, taken: set<string>, tokens: Option<nat>)
    requires n <= |anchors| && Visited(list, cap, anchors, n, taken, tokens) == None
    ensures exists anchor :: anchor in anchors && ListingBreaks(list, cap, anchor)
  {
    if n > 0 {
      VisitedNext(list, cap, anchors, n - 1, taken, tokens);
      var before, anchor := Visited(list, cap, anchors, n - 1, taken, tokens), anchors[n - 1];
      assert anchor in anchors;
      if before.None? {
        GatherBreaks(list, cap, anchors, n - 1, taken, tokens);
      } else if list(anchor, cap).Some? {
        DueBreaks(cap, before.value, list(anchor, cap).value);
      }
    }
  }

  // --- The foresights of a context ---

  function Least(a: nat, b: nat): nat {
    if a < b then a else b
  }

  /** What is left of a token budget. */
  function Rest(tokens: Option<nat>, items: seq<Item>): Option<nat> {
    match tokens
    case None => None
    case Some(budget) => Some(SatSub(budget, Tokens(items)))
  }

  /** These are the foresights due: listed for the anchors, in that order, at most five and no more than there is room
      and budget for, none of them there already or twice; and unless that many are reached, nothing that is listed is
      left out without cause. */
  ghost predicate DueFor(
    list: Listing, maxItems: nat, anchors: seq<Anchor>, taken: set<string>, tokens: Option<nat>, items: seq<Item>)
  {
    var cap := Least(maxItems, 5);
    && |items| <= cap && DistinctIds(items) && (tokens.Some? ==> Tokens(items) <= tokens.value)
    && (forall j :: 0 <= j < |items| ==> items[j].drawerId !in taken)
    && (exists places :: Located(list, cap, anchors, items, places))
    && (|items| == cap || forall d :: Listed(list, cap, anchors, d) ==>
          Explained(list, cap, anchors, taken, items, Rest(tokens, items), d.item.drawerId))
  }

  /** Gathering, whatever is listed: it fails only if a listing fails or lists what does not load, and otherwise finds
      the foresights due. */
  lemma GatherFindsDue(list: Listing, maxItems: nat, anchors: seq<Anchor>, taken: set<string>, tokens: Option<nat>)
    ensures var g := Gather(list, maxItems, anchors, taken, tokens);
            && (g.Some? ==> DueFor(list, maxItems, anchors, taken, tokens, g.value.items)
                            && g.value.used == Tokens(g.value.items))
            && (g.None? ==> exists anchor :: anchor in anchors && ListingBreaks(list, Least(maxItems, 5), anchor))
  {
    var cap, n, gathered := Least(maxItems, 5), |anchors|, Gather(list, maxItems, anchors, taken, tokens);
    assert anchors[..n] == anchors;
    assert Visited(list, cap, anchors, n, taken, tokens) == gathered;
    if gathered.None? {
      GatherBreaks(list, cap, anchors, n, taken, tokens);
    } else {
      GatherIsWell(list, maxItems, anchors, taken, tokens);
      var places := GatheredAreListed(list, cap, anchors, n, taken, tokens);
      ListedAreGathered(list, cap, anchors, n, taken, tokens);
    }
  }

  // --- What trimming leaves ---

  /** The first `k` sections whole, and of the next its first `n` items. */
  function CutAt(sections: seq<Section>, k: nat, n: nat): seq<Section>
    requires k <= |sections| && (n > 0 ==> k < |sections| && n <= |sections[k].items|)
  {
    sections[..k] + if n == 0 then [] else [Section(sections[k].name, sections[k].items[..n])]
  }

  /** Where the cut falls with one more section: unchanged if it fell before, else in the last section or after it. */
  lemma CutWithOneMore(front: seq<Section>, last: Section, size: nat, cap: nat, k: nat, n: nat) returns (at: nat,
    rest: nat)
    requires last.items != [] && k <= |front| && (n > 0 ==> k < |front| && n <= |front[k].items|)
    requires if size <= cap then k == |front| else k < |front|
    ensures at <= |front| + 1 && (rest > 0 ==> at < |front| + 1 && rest <= |(front + [last])[at].items|)
    ensures CutAt(front + [last], at, rest) ==
            CutAt(front, k, n) + Nonempty(Section(last.name, Prefix(last.items, SatSub(cap, size))))
    ensures size > cap ==> at == k && rest == n
    ensures size <= cap < size + |last.items| ==> at == |front| && size + rest == cap
    ensures size + |last.items| <= cap ==> at == |front| + 1
  {
    var all := front + [last];
    at, rest := k, n;
    if size > cap {
      assert all[..k] == front[..k];
    } else if size + |last.items| <= cap {
      at, rest := |all|, 0;
      assert all[..at] == all && front[..k] == front;
    } else {
      rest := cap - size;
      assert all[..k] == front && front[..k] == front;
    }
  }

  /** Trimming cuts once: sections before the cut stay whole, with their names, and sections after it go. */
  lemma {:induction false} TrimCutsOnce(sections: seq<Section>, cap: nat) returns (k: nat, n: nat)
    requires forall i :: 0 <= i < |sections| ==> sections[i].items != []
    ensures k <= |sections| && (n > 0 ==> k < |sections| && n <= |sections[k].items|)
    ensures Trimmed(sections, cap) == CutAt(sections, k, n)
    ensures |Flatten(sections)| <= cap ==> k == |sections|
    ensures |Flatten(sections)| > cap ==> |Flatten(sections[..k])| + n == cap && k < |sections|
  {
    if |sections| == 0 {
      k, n := 0, 0;
    } else {
      var front, last := sections[..|sections| - 1], sections[|sections| - 1];
      assert sections == front + [last];
      TrimAppend(front, last, cap);
      FlattenAppend(front, [last]);
      k, n := TrimCutsOnce(front, cap);
      ghost var earlier := k;
      k, n := CutWithOneMore(front, last, |Flatten(front)|, cap, k, n);
      if |Flatten(front)| > cap {
        assert sections[..k] == front[..earlier];
      } else if |Flatten(sections)| > cap {
        assert sections[..k] == front;
      }
    }
  }

  /** The foresights, then what was there up to one cut, every section under its own name. */
  lemma PrependKeepsNames(sections: seq<Section>, maxItems: nat, items: seq<Item>) returns (k: nat, n: nat)
    requires 0 < |items| <= maxItems
    ensures var kept := Filter(sections, HasItems());
            && k <= |kept| && (n > 0 ==> k < |kept| && n <= |kept[k].items|)
            && Prepended(sections, maxItems, items) == [Section(Foresight, items)] + CutAt(kept, k, n)
            && (|items| + |Flatten(kept)| <= maxItems ==> k == |kept|)
            && (|items| + |Flatten(kept)| > maxItems ==> |items| + |Flatten(kept[..k])| + n == maxItems)
  {
    var kept := Filter(sections, HasItems());
    forall i | 0 <= i < |kept| ensures kept[i].items != [] {
      assert kept[i] in kept;
    }
    k, n := TrimCutsOnce(kept, maxItems - |items|);
  }
}
