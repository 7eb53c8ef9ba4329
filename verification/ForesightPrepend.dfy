/** The section vector of a context pack, edited in place (`src/context.rs`), and the anchors it is assembled for. */
module ForesightPrepend {
  import opened Prelude
  import opened Machine
  import opened ContextAssembly
  import opened ForesightSection
  import opened ForesightLaws
  import E = Evidence

  lemma DueStop(cap: nat, start: Option<Gathered>, due: seq<Due>, i: nat, end: Option<Gathered>)
    requires i <= |due| && Play(Considering(cap), start, due[..i]) == end
    requires end.Some? ==> |end.value.items| >= cap
    ensures Play(Considering(cap), start, due) == end
  {
    PlayStops(Considering(cap), start, due, i, end);
  }

  lemma DueNext(cap: nat, start: Option<Gathered>, due: seq<Due>, i: nat)
    requires i < |due|
    ensures Play(Considering(cap), start, due[..i + 1]) ==
            Consider(cap, Play(Considering(cap), start, due[..i]), due[i])
  {
    assert due[..i + 1] == due[..i] + [due[i]];
    PlayAppend(Considering(cap), start, due[..i], due[i]);
  }

  lemma VisitStop(list: Listing, cap: nat, start: Option<Gathered>, anchors: seq<Anchor>, i: nat, end: Option<Gathered>)
    requires i <= |anchors| && Play(Visiting(list, cap), start, anchors[..i]) == end
    requires end.Some? ==> |end.value.items| >= cap
    ensures Play(Visiting(list, cap), start, anchors) == end
  {
    PlayStops(Visiting(list, cap), start, anchors, i, end);
  }

  lemma VisitNext(list: Listing, cap: nat, start: Option<Gathered>, anchors: seq<Anchor>, i: nat)
    requires i < |anchors|
    ensures Play(Visiting(list, cap), start, anchors[..i + 1]) ==
            Visit(list, cap, Play(Visiting(list, cap), start, anchors[..i]), anchors[i])
  {
    assert anchors[..i + 1] == anchors[..i] + [anchors[i]];
    PlayAppend(Visiting(list, cap), start, anchors[..i], anchors[i]);
  }

  /** The inner loop: the foresights listed for one anchor, until the cap is reached. */
  method GatherDue(cap: nat, start: Gathered, due: seq<Due>) returns (result: Option<Gathered>)
    requires |start.items| < cap
    ensures result == Play(Considering(cap), Some(start), due)
  {
    var seen, items, left, used := start.seen, start.items, start.left, start.used;
    for i := 0 to |due|
      invariant |items| < cap
      invariant Play(Considering(cap), Some(start), due[..i]) == Some(Gathered(seen, items, left, used))
    {
      DueNext(cap, Some(start), due, i);
      var d := due[i];
      if d.item.drawerId in seen {
        continue;
      }
      seen := seen + {d.item.drawerId};
      if !d.loads {
        DueStop(cap, Some(start), due, i + 1, None);
        return None;
      }
      var tokens := E.EstimateTokens(d.item.text);
      if left.Some? && tokens > left.value {
        continue;
      }
      if left.Some? {
        left := Some(SatSub(left.value, tokens));
      }
      used := used + tokens;
      items := items + [d.item];
      if |items| >= cap {
        DueStop(cap, Some(start), due, i + 1, Some(Gathered(seen, items, left, used)));
        break;
      }
    }
    result := Some(Gathered(seen, items, left, used));
    if |items| < cap {
      assert due[..|due|] == due;
    }
  }

  method GatherAll(list: Listing, maxItems: nat, anchors: seq<Anchor>, taken: set<string>, tokens: Option<nat>)
    returns (result: Option<Gathered>)
    requires maxItems > 0
    ensures result == Gather(list, maxItems, anchors, taken, tokens)
  {
    var cap := Cap(maxItems);
    var g := Gathered(taken, [], tokens, 0);
    ghost var start := Some(g);
    for i := 0 to |anchors|
      invariant |g.items| < cap && Play(Visiting(list, cap), start, anchors[..i]) == Some(g)
    {
      VisitNext(list, cap, start, anchors, i);
      var due := list(anchors[i], cap);
      if due.None? {
        VisitStop(list, cap, start, anchors, i + 1, None);
        return None;
      }
      var next := GatherDue(cap, g, due.value);
      if next.None? || |next.value.items| >= cap {
        VisitStop(list, cap, start, anchors, i + 1, next);
        return next;
      }
      g := next.value;
    }
    assert anchors[..|anchors|] == anchors;
    result := Some(g);
  }

  lemma DueIdsAreNew(g: Gathered, cap: nat, taken: set<string>, tokens: Option<nat>)
    requires WellGathered(g, cap, taken, tokens)
    ensures (set item | item in g.items :: item.drawerId) !! taken
  {
  }

  /** What one step of trimming does to section `i` and to the count. */
  lemma CutStep(sections: seq<Section>, cap: nat, i: nat)
    requires i < |sections|
    ensures var free, all, cut := SatSub(cap, |Flatten(sections[..i])|), sections[i].items, Cut(sections, cap);
            && cut[i] == Section(sections[i].name, if free >= |all| then all else all[..free])
            && SatSub(cap, |Flatten(sections[..i + 1])|) == SatSub(free, |all|)
            && cut[..i + 1] + sections[i + 1..] == (cut[..i] + sections[i..])[i := cut[i]]
  {
    assert sections[..i + 1] == sections[..i] + [sections[i]];
    FlattenAppend(sections[..i], [sections[i]]);
  }

  class ContextSections {
    var sections: seq<Section>

    /** `trim_context_sections_to_item_cap`: the running count cuts each section where the cap falls. */
    method TrimToItemCap(cap: nat)
      modifies this
      ensures sections == Trimmed(old(sections), cap)
    {
      ghost var before := sections;
      var remaining := cap;
      for i := 0 to |sections|
        invariant |sections| == |before| && remaining == SatSub(cap, |Flatten(before[..i])|)
        invariant sections == Cut(before, cap)[..i] + before[i..]
      {
        CutStep(before, cap, i);
        if remaining >= |sections[i].items| {
          remaining := remaining - |sections[i].items|;
        } else {
          sections := sections[i := Section(sections[i].name, sections[i].items[..remaining])];
          remaining := 0;
        }
      }
      assert Cut(before, cap)[..|before|] + before[|before|..] == Cut(before, cap);
      sections := Filter(sections, HasItems());
    }

    /** The removal pass, for ids that are not there: every section stays as it is. */
    method RemoveIds(due: set<string>)
      requires due !! Ids(sections)
      modifies this
      ensures sections == old(sections)
    {
      ghost var before := sections;
      for i := 0 to |sections|
        invariant sections == before
      {
        RemovalIsIdle(sections, due, i);
        sections := sections[i := Section(sections[i].name, Filter(sections[i].items, NotAmong(due)))];
      }
    }

    /** `prepend_due_foresight_section`: a failed listing or load changes nothing; otherwise the sections are the
        foresights that are due followed by the trimmed rest, and the tokens they use are returned. */
    method PrependDueForesight(list: Listing, maxItems: nat, anchors: seq<Anchor>, tokens: Option<nat>)
      returns (used: Option<nat>)
      modifies this
      ensures var g := Gather(list, maxItems, anchors, old(Ids(sections)), tokens);
              if maxItems == 0 then used == Some(0) && sections == old(sections)
              else if g.None? then used == None && sections == old(sections)
              else used == Some(g.value.used) && sections == Prepended(old(sections), maxItems, g.value.items)
      ensures used.Some? && maxItems > 0 ==>
                exists items :: DueFor(list, maxItems, anchors, old(Ids(sections)), tokens, items)
                                && used.value == Tokens(items) && sections == Prepended(old(sections), maxItems, items)
      ensures used.None? ==>
                sections == old(sections)
                && exists anchor :: anchor in anchors && ListingBreaks(list, Least(maxItems, 5), anchor)
    {
      if maxItems == 0 {
        return Some(0);
      }
      var taken := Ids(sections);
      var gathered := GatherAll(list, maxItems, anchors, taken, tokens);
      GatherFindsDue(list, maxItems, anchors, taken, tokens);
      if gathered.None? {
        return None;
      }
      var g := gathered.value;
      GatherIsWell(list, maxItems, anchors, taken, tokens);
      used := Some(g.used);
      if g.items == [] {
        return;
      }
      DueIdsAreNew(g, Cap(maxItems), taken, tokens);
      RemoveIds(set item | item in g.items :: item.drawerId);
      sections := Filter(sections, HasItems());
      TrimToItemCap(SatSub(maxItems, |g.items|));
      sections := [Section(Foresight, g.items)] + sections;
    }
  }

  // --- Anchors ---

  function AnchorKey(a: Anchor): (string, string) {
    (a.kind, a.id)
  }

  function AnchorKeys(anchors: seq<Anchor>): set<(string, string)> {
    set a | a in anchors :: AnchorKey(a)
  }

  /** The anchors that are the first of their key, in order. */
  function FirstOfKey(anchors: seq<Anchor>): seq<Anchor> {
    if anchors == [] then [] else
      var front, last := anchors[..|anchors| - 1], anchors[|anchors| - 1];
      if AnchorKey(last) in AnchorKeys(front) then FirstOfKey(front) else FirstOfKey(front) + [last]
  }

  lemma AnchorKeysAppend(anchors: seq<Anchor>, a: Anchor)
    ensures AnchorKeys(anchors + [a]) == AnchorKeys(anchors) + {AnchorKey(a)}
  {
    assert forall x :: x in anchors + [a] <==> x in anchors || x == a;
    assert a in anchors + [a];
  }

  /** Every key survives, once. */
  lemma {:induction false} DedupKeepsKeysOnce(anchors: seq<Anchor>)
    ensures AnchorKeys(FirstOfKey(anchors)) == AnchorKeys(anchors)
    ensures forall i, j :: 0 <= i < j < |FirstOfKey(anchors)| ==>
              AnchorKey(FirstOfKey(anchors)[i]) != AnchorKey(FirstOfKey(anchors)[j])
  {
    if anchors == [] {
    } else {
      var front, last := anchors[..|anchors| - 1], anchors[|anchors| - 1];
      DedupKeepsKeysOnce(front);
      assert anchors == front + [last];
      AnchorKeysAppend(front, last);
      AnchorKeysAppend(FirstOfKey(front), last);
      forall a | a in FirstOfKey(front) ensures AnchorKey(a) in AnchorKeys(front) {
        assert AnchorKey(a) in AnchorKeys(FirstOfKey(front));
      }
    }
  }

  /** No earlier anchor has the same kind and id. */
  predicate IsFirst(anchors: seq<Anchor>, i: nat)
    requires i < |anchors|
  {
    forall j :: 0 <= j < i ==> anchors[j].kind != anchors[i].kind || anchors[j].id != anchors[i].id
  }

  lemma LastIsFirst(front: seq<Anchor>, last: Anchor)
    ensures IsFirst(front + [last], |front|) <==> AnchorKey(last) !in AnchorKeys(front)
  {
    var all := front + [last];
    if AnchorKey(last) in AnchorKeys(front) {
      var a :| a in front && AnchorKey(a) == AnchorKey(last);
      var j :| 0 <= j < |front| && front[j] == a;
      assert all[j] == a;
    } else {
      forall j | 0 <= j < |front| ensures all[j].kind != last.kind || all[j].id != last.id {
        assert front[j] in front;
      }
    }
  }

  /** `kept` are the anchors at `indices`, which are the positions without an earlier anchor of the same kind and id. */
  ghost predicate KeptAt(anchors: seq<Anchor>, kept: seq<Anchor>, indices: seq<nat>) {
    && |indices| == |kept| && (forall i, j :: 0 <= i < j < |indices| ==> indices[i] < indices[j])
    && (forall j :: 0 <= j < |indices| ==> indices[j] < |anchors| && kept[j] == anchors[indices[j]])
    && (forall i :: 0 <= i < |anchors| ==> (i in indices <==> IsFirst(anchors, i)))
  }

  lemma KeepOneMore(front: seq<Anchor>, kept: seq<Anchor>, indices: seq<nat>, last: Anchor)
    requires KeptAt(front, kept, indices)
    ensures if IsFirst(front + [last], |front|) then KeptAt(front + [last], kept + [last], indices + [|front|])
            else KeptAt(front + [last], kept, indices)
  {
    var anchors := front + [last];
    assert |front| !in indices;
    forall i | 0 <= i < |front| ensures IsFirst(anchors, i) <==> IsFirst(front, i) {
      assert forall j :: 0 <= j <= i ==> anchors[j] == front[j];
    }
  }

  lemma {:induction false} DedupKeepsFirsts(anchors: seq<Anchor>) returns (indices: seq<nat>)
    ensures KeptAt(anchors, FirstOfKey(anchors), indices)
  {
    if |anchors| == 0 {
      indices := [];
    } else {
      var front, last := anchors[..|anchors| - 1], anchors[|anchors| - 1];
      assert anchors == front + [last];
      indices := DedupKeepsFirsts(front);
      LastIsFirst(front, last);
      KeepOneMore(front, FirstOfKey(front), indices, last);
      if AnchorKey(last) !in AnchorKeys(front) {
        indices := indices + [|front|];
      }
    }
  }

  method DedupAnchors(anchors: seq<Anchor>) returns (kept: seq<Anchor>)
    ensures kept == FirstOfKey(anchors)
    ensures AnchorKeys(kept) == AnchorKeys(anchors) && exists indices :: KeptAt(anchors, kept, indices)
  {
    var seen: set<(string, string)> := {};
    kept := [];
    for i := 0 to |anchors|
      invariant seen == AnchorKeys(anchors[..i]) && kept == FirstOfKey(anchors[..i])
    {
      assert anchors[..i + 1] == anchors[..i] + [anchors[i]] && anchors[..i + 1][..i] == anchors[..i];
      AnchorKeysAppend(anchors[..i], anchors[i]);
      if AnchorKey(anchors[i]) !in seen {
        kept := kept + [anchors[i]];
      }
      seen := seen + {AnchorKey(anchors[i])};
    }
    assert anchors[..|anchors|] == anchors;
    DedupKeepsKeysOnce(anchors);
    ghost var indices := DedupKeepsFirsts(anchors);
  }
}
