/** `prepend_due_foresight_section` and `trim_context_sections_to_item_cap` (`src/context.rs`): due foresights go
    first, and what was assembled before is cut back to the cap. */
module ForesightSection {
  import opened Prelude
  import opened Machine
  import opened ContextAssembly
  import E = Evidence

  /** A listed foresight; `loads` says whether building its context item succeeds. */
  datatype Due = Due(item: Item, loads: bool)

  datatype Gathered = Gathered(seen: set<string>, items: seq<Item>, left: Option<nat>, used: nat)

  // --- Gathering, one foresight after the other ---

  function Consider(cap: nat, state: Option<Gathered>, d: Due): Option<Gathered> {
    match state
    case None => None
    case Some(g) =>
      if |g.items| >= cap || d.item.drawerId in g.seen then state
      else if !d.loads then None
      else
        var seen, tokens := g.seen + {d.item.drawerId}, E.EstimateTokens(d.item.text);
        match g.left
        case None => Some(Gathered(seen, g.items + [d.item], None, g.used + tokens))
        case Some(left) =>
          if tokens > left then Some(g.(seen := seen))
          else Some(Gathered(seen, g.items + [d.item], Some(left - tokens), g.used + tokens))
  }

  function Considering(cap: nat): (Option<Gathered>, Due) -> Option<Gathered> {
    (state, d) => Consider(cap, state, d)
  }

  type Listing = (Anchor, nat) -> Option<seq<Due>>

  function Visit(list: Listing, cap: nat, state: Option<Gathered>, anchor: Anchor): Option<Gathered> {
    match state
    case None => None
    case Some(g) =>
      if |g.items| >= cap then state
      else match list(anchor, cap)
        case None => None
        case Some(due) => Play(Considering(cap), state, due)
  }

  function Visiting(list: Listing, cap: nat): (Option<Gathered>, Anchor) -> Option<Gathered> {
    (state, anchor) => Visit(list, cap, state, anchor)
  }

  function Cap(maxItems: nat): nat {
    if maxItems < 5 then maxItems else 5
  }

  function Ids(sections: seq<Section>): set<string> {
    set item | item in Flatten(sections) :: item.drawerId
  }

  function Gather(
    list: Listing, maxItems: nat, anchors: seq<Anchor>, taken: set<string>, tokens: Option<nat>): Option<Gathered> {
    Play(Visiting(list, Cap(maxItems)), Some(Gathered(taken, [], tokens, 0)), anchors)
  }

  function Tokens(items: seq<Item>): nat {
    if items == [] then 0 else Tokens(items[..|items| - 1]) + E.EstimateTokens(items[|items| - 1].text)
  }

  predicate DistinctIds(items: seq<Item>) {
    forall i, j :: 0 <= i < j < |items| ==> items[i].drawerId != items[j].drawerId
  }

  /** Within the cap and the token budget, which is spent exactly; ids distinct and none of them taken before. */
  predicate WellGathered(g: Gathered, cap: nat, taken: set<string>, tokens: Option<nat>) {
    && |g.items| <= cap && g.used == Tokens(g.items)
    && (tokens.None? ==> g.left.None?)
    && (tokens.Some? ==> g.left.Some? && g.used + g.left.value == tokens.value)
    && taken <= g.seen && DistinctIds(g.items)
    && (forall i :: 0 <= i < |g.items| ==> g.items[i].drawerId in g.seen && g.items[i].drawerId !in taken)
  }

  lemma ConsiderKeeps(cap: nat, g: Gathered, d: Due, taken: set<string>, tokens: Option<nat>)
    requires WellGathered(g, cap, taken, tokens)
    ensures Consider(cap, Some(g), d).Some? ==> WellGathered(Consider(cap, Some(g), d).value, cap, taken, tokens)
  {
    assert (g.items + [d.item])[..|g.items|] == g.items;
  }

  lemma {:induction false} ConsiderAllKeeps(
    cap: nat, g: Gathered, due: seq<Due>, taken: set<string>, tokens: Option<nat>)
    requires WellGathered(g, cap, taken, tokens)
    ensures var next := Play(Considering(cap), Some(g), due);
            next.Some? ==> WellGathered(next.value, cap, taken, tokens)
  {
    if due == [] {
    } else {
      ConsiderAllKeeps(cap, g, due[..|due| - 1], taken, tokens);
      var middle := Play(Considering(cap), Some(g), due[..|due| - 1]);
      if middle.Some? {
        ConsiderKeeps(cap, middle.value, due[|due| - 1], taken, tokens);
      }
    }
  }

  /** Whatever is listed, what is gathered is well gathered. */
  lemma {:induction false} GatherIsWell(
    list: Listing, maxItems: nat, anchors: seq<Anchor>, taken: set<string>, tokens: Option<nat>)
    ensures var g := Gather(list, maxItems, anchors, taken, tokens);
            g.Some? ==> WellGathered(g.value, Cap(maxItems), taken, tokens)
  {
    if anchors == [] {
    } else {
      GatherIsWell(list, maxItems, anchors[..|anchors| - 1], taken, tokens);
      var before := Gather(list, maxItems, anchors[..|anchors| - 1], taken, tokens);
      var due := list(anchors[|anchors| - 1], Cap(maxItems));
      if before.Some? && due.Some? {
        ConsiderAllKeeps(Cap(maxItems), before.value, due.value, taken, tokens);
      }
    }
  }

  // --- Trimming ---

  function HasItems(): Section -> bool {
    (s: Section) => s.items != []
  }

  /** How much of section `i` is within the first `cap` items. */
  function Room(sections: seq<Section>, cap: nat, i: nat): (n: nat)
    requires i < |sections|
    ensures n <= |sections[i].items|
  {
    var free := SatSub(cap, |Flatten(sections[..i])|);
    if free < |sections[i].items| then free else |sections[i].items|
  }

  function Cut(sections: seq<Section>, cap: nat): seq<Section> {
    seq(|sections|, i requires 0 <= i < |sections| =>
      Section(sections[i].name, sections[i].items[..Room(sections, cap, i)]))
  }

  function Trimmed(sections: seq<Section>, cap: nat): seq<Section> {
    Filter(Cut(sections, cap), HasItems())
  }

  function Prefix(items: seq<Item>, cap: nat): seq<Item> {
    if cap < |items| then items[..cap] else items
  }

  lemma CutAppend(sections: seq<Section>, s: Section, cap: nat)
    ensures var all := sections + [s];
            Cut(all, cap) == Cut(sections, cap) + [Section(s.name, s.items[..Room(all, cap, |sections|)])]
  {
    var all := sections + [s];
    forall i | 0 <= i < |sections| ensures Cut(all, cap)[i] == Cut(sections, cap)[i] {
      assert all[..i] == sections[..i];
    }
  }

  function Nonempty(s: Section): seq<Section> {
    if s.items != [] then [s] else []
  }

  lemma TrimAppend(sections: seq<Section>, s: Section, cap: nat)
    ensures Trimmed(sections + [s], cap) ==
            Trimmed(sections, cap) + Nonempty(Section(s.name, Prefix(s.items, SatSub(cap, |Flatten(sections)|))))
  {
    CutAppend(sections, s, cap);
    assert (sections + [s])[..|sections|] == sections;
    var cut := Section(s.name, Prefix(s.items, SatSub(cap, |Flatten(sections)|)));
    assert s.items[..Room(sections + [s], cap, |sections|)] == cut.items;
    FilterAppend(Cut(sections, cap), cut, HasItems());
  }

  /** Trimming keeps exactly the first `cap` items, in order. */
  lemma {:induction false} TrimIsPrefix(sections: seq<Section>, cap: nat)
    ensures Flatten(Trimmed(sections, cap)) == Prefix(Flatten(sections), cap)
  {
    if sections == [] {
    } else {
      var front, last := sections[..|sections| - 1], sections[|sections| - 1];
      assert sections == front + [last];
      TrimIsPrefix(front, cap);
      TrimAppend(front, last, cap);
      var cut := Section(last.name, Prefix(last.items, SatSub(cap, |Flatten(front)|)));
      FlattenAppend(Trimmed(front, cap), Nonempty(cut));
      PrefixConcat(Flatten(front), last.items, cap);
    }
  }

  lemma PrefixConcat(a: seq<Item>, b: seq<Item>, cap: nat)
    ensures Prefix(a + b, cap) == Prefix(a, cap) + Prefix(b, SatSub(cap, |a|))
  {
  }

  lemma {:induction false} DroppingEmptySections(sections: seq<Section>)
    ensures Flatten(Filter(sections, HasItems())) == Flatten(sections)
  {
    if sections == [] {
    } else {
      var front, last := sections[..|sections| - 1], sections[|sections| - 1];
      assert sections == front + [last];
      DroppingEmptySections(front);
      FilterAppend(front, last, HasItems());
      FlattenAppend(Filter(front, HasItems()), if HasItems()(last) then [last] else []);
    }
  }

  // --- The pass that removes due ids ---

  function NotAmong(due: set<string>): Item -> bool {
    (item: Item) => item.drawerId !in due
  }

  lemma {:induction false} ItemsAreFlattened(sections: seq<Section>, i: nat)
    requires i < |sections|
    ensures forall item :: item in sections[i].items ==> item in Flatten(sections)
  {
    if i == |sections| - 1 {
    } else {
      ItemsAreFlattened(sections[..|sections| - 1], i);
    }
  }

  /** The gathered ids avoid those already present, so the removal pass removes nothing. */
  lemma RemovalIsIdle(sections: seq<Section>, due: set<string>, i: nat)
    requires i < |sections| && due !! Ids(sections)
    ensures Filter(sections[i].items, NotAmong(due)) == sections[i].items
  {
    ItemsAreFlattened(sections, i);
    forall item | item in sections[i].items ensures NotAmong(due)(item) {
      assert item in Flatten(sections);
    }
    FilterAll(sections[i].items, NotAmong(due));
  }

  // --- The result ---

  function Prepended(sections: seq<Section>, maxItems: nat, items: seq<Item>): seq<Section> {
    if items == [] then sections
    else [Section(Foresight, items)] + Trimmed(Filter(sections, HasItems()), SatSub(maxItems, |items|))
  }

  lemma FlattenOne(s: Section)
    ensures Flatten([s]) == s.items
  {
    assert [] + [s] == [s];
    FlattenAppend([], [s]);
  }

  lemma {:induction false} FlattenFront(first: Section, rest: seq<Section>)
    ensures Flatten([first] + rest) == first.items + Flatten(rest)
  {
    if |rest| == 0 {
      assert [first] + rest == [first];
      FlattenOne(first);
    } else {
      var front, last := rest[..|rest| - 1], rest[|rest| - 1];
      FlattenFront(first, front);
      FlattenAppend([first] + front, [last]);
      assert [first] + rest == [first] + front + [last];
    }
  }

  /** Foresights come first, followed by an exact prefix of what was there, within the cap. */
  lemma PrependIsPrefix(sections: seq<Section>, maxItems: nat, items: seq<Item>)
    requires |items| <= maxItems
    ensures var result := Flatten(Prepended(sections, maxItems, items));
            && (items != [] ==> result == items + Prefix(Flatten(sections), maxItems - |items|) && |result| <= maxItems)
            && (items == [] ==> result == Flatten(sections))
  {
    if items != [] {
      var rest := Filter(sections, HasItems());
      FlattenFront(Section(Foresight, items), Trimmed(rest, maxItems - |items|));
      TrimIsPrefix(rest, maxItems - |items|);
      DroppingEmptySections(sections);
    }
  }

  predicate FlatContextOk(sections: seq<Section>, maxItems: nat, items: seq<Item>) {
    var result := Flatten(Prepended(sections, maxItems, items));
    && |result| <= maxItems && |items| <= Cap(maxItems) && DistinctIds(items)
    && result == items + Prefix(Flatten(sections), SatSub(maxItems, |items|))
    && forall i :: 0 <= i < |items| ==> items[i].drawerId !in Ids(sections)
  }

  lemma ForesightOnTop(sections: seq<Section>, maxItems: nat, list: Listing, anchors: seq<Anchor>, g: Gathered)
    requires |Flatten(sections)| <= maxItems
    requires Gather(list, maxItems, anchors, Ids(sections), None) == Some(g)
    ensures FlatContextOk(sections, maxItems, g.items)
  {
    GatherIsWell(list, maxItems, anchors, Ids(sections), None);
    PrependIsPrefix(sections, maxItems, g.items);
  }

  /** A whole flat context, for every database: at most `maxItems` items and five foresights, the foresights' ids
      distinct and new, and after them an exact prefix of the assembly. */
  lemma FlatContext(r: Request, anchors: seq<Anchor>, list: Listing, sections: seq<Section>, g: Gathered)
    requires Assembled(r, anchors) == Some(sections)
    requires Gather(list, r.maxItems, anchors, Ids(sections), None) == Some(g)
    ensures FlatContextOk(sections, r.maxItems, g.items)
  {
    AssemblyFits(r, anchors);
    ForesightOnTop(sections, r.maxItems, list, anchors, g);
  }
}
