/** What a flat context holds, said from the request, the anchors and the database's answers alone. */
module ContextLaws {
  import opened Prelude
  import opened Machine
  import opened ContextAssembly

  // --- Which queries are asked ---

  /** A tier is asked for canonical and for promoted knowledge of every anchor, in drawers and, if wanted, in cards; the
      evidence section, if wanted, for any drawer of every anchor. */
  predicate Planned(r: Request, anchors: seq<Anchor>, q: Query) {
    && q.anchor in anchors
    && if q.slot < 4 then (q.status == Some(Canonical) || q.status == Some(Promoted)) && (q.cards ==> r.includeCards)
       else q.slot == 4 && r.includeEvidence && !q.cards && q.status == None
  }

  lemma InBoth(a: seq<Query>, b: seq<Query>, q: Query)
    ensures q in a + b <==> q in a || q in b
  {
  }

  lemma AnchorCovers(slot: nat, cards: bool, anchor: Anchor, statuses: seq<Option<Status>>, q: Query)
    ensures q in ForAnchor(slot, cards, anchor, statuses) <==>
              q.slot == slot && q.cards == cards && q.anchor == anchor && q.status in statuses
  {
    var plan := ForAnchor(slot, cards, anchor, statuses);
    if q.slot == slot && q.cards == cards && q.anchor == anchor && q.status in statuses {
      var k :| 0 <= k < |statuses| && statuses[k] == q.status;
      assert plan[k] == q;
    }
  }

  lemma {:induction false} AnchorsCover(
    slot: nat, cards: bool, anchors: seq<Anchor>, statuses: seq<Option<Status>>, q: Query)
    ensures q in ForAnchors(slot, cards, anchors, statuses) <==>
              q.slot == slot && q.cards == cards && q.anchor in anchors && q.status in statuses
  {
    if |anchors| == 0 {
    } else {
      var front, last := anchors[..|anchors| - 1], anchors[|anchors| - 1];
      AnchorsCover(slot, cards, front, statuses, q);
      AnchorCovers(slot, cards, last, statuses, q);
      InBoth(ForAnchors(slot, cards, front, statuses), ForAnchor(slot, cards, last, statuses), q);
      assert anchors == front + [last];
    }
  }

  lemma SlotCovers(r: Request, anchors: seq<Anchor>, slot: nat, q: Query)
    requires slot < SLOTS
    ensures q in SlotPlan(r, anchors, slot) <==> q.slot == slot && Planned(r, anchors, q)
  {
    AnchorsCover(slot, false, anchors, Statuses(slot), q);
    AnchorsCover(slot, true, anchors, Statuses(slot), q);
    InBoth(ForAnchors(slot, false, anchors, Statuses(slot)), ForAnchors(slot, true, anchors, Statuses(slot)), q);
  }

  lemma {:induction false} FirstSlotsCover(r: Request, anchors: seq<Anchor>, slots: nat, q: Query)
    requires slots <= SLOTS
    ensures q in Plan(r, anchors, slots) <==> q.slot < slots && Planned(r, anchors, q)
  {
    if slots == 0 {
    } else {
      FirstSlotsCover(r, anchors, slots - 1, q);
      SlotCovers(r, anchors, slots - 1, q);
      InBoth(Plan(r, anchors, slots - 1), SlotPlan(r, anchors, slots - 1), q);
    }
  }

  /** The plan holds exactly the queries there should be. */
  lemma PlanCovers(r: Request, anchors: seq<Anchor>)
    ensures forall q :: q in Plan(r, anchors, SLOTS) <==> Planned(r, anchors, q)
  {
    forall q ensures q in Plan(r, anchors, SLOTS) <==> Planned(r, anchors, q) {
      FirstSlotsCover(r, anchors, SLOTS, q);
    }
  }

  lemma {:induction false} TwoPerAnchor(slot: nat, cards: bool, anchors: seq<Anchor>, statuses: seq<Option<Status>>)
    requires |statuses| == 2
    ensures var plan := ForAnchors(slot, cards, anchors, statuses);
            && |plan| == 2 * |anchors|
            && forall i :: 0 <= i < |anchors| ==>
                 && plan[2 * i] == Query(slot, cards, anchors[i], statuses[0])
                 && plan[2 * i + 1] == Query(slot, cards, anchors[i], statuses[1])
  {
    if |anchors| == 0 {
    } else {
      TwoPerAnchor(slot, cards, anchors[..|anchors| - 1], statuses);
    }
  }

  /** The order of a tier's queries: anchor by anchor, canonical before promoted, drawers before cards. */
  lemma TierOrder(r: Request, anchors: seq<Anchor>, slot: nat, i: nat)
    requires slot < 4 && i < |anchors|
    ensures var plan, n := SlotPlan(r, anchors, slot), 2 * |anchors|;
            && |plan| == (if r.includeCards then 2 * n else n)
            && plan[2 * i] == Query(slot, false, anchors[i], Some(Canonical))
            && plan[2 * i + 1] == Query(slot, false, anchors[i], Some(Promoted))
            && (r.includeCards ==>
                  && plan[n + 2 * i] == Query(slot, true, anchors[i], Some(Canonical))
                  && plan[n + 2 * i + 1] == Query(slot, true, anchors[i], Some(Promoted)))
  {
    TwoPerAnchor(slot, false, anchors, Statuses(slot));
    TwoPerAnchor(slot, true, anchors, Statuses(slot));
  }

  // --- Where an item comes from ---

  /** Search results of another anchor do not count; cards are filtered by the query itself. */
  predicate Offered(q: Query, c: Candidate) {
    q.cards || c.anchorId == q.anchor.id
  }

  /** The `k`-th answer to the query, asked with that limit, is offered, loads and is this very item. */
  predicate Supplies(r: Request, q: Query, limit: nat, k: nat, item: Item) {
    && limit > 0 && r.answer(q, limit).Some? && k < |r.answer(q, limit).value|
    && var c := r.answer(q, limit).value[k];
       && Offered(q, c) && c.loads
       && item.drawerId == c.id && item.anchorId == c.anchorId && item.text == c.text
       && (if q.cards then item.cardId == Some(c.id) else item.cardId == None)
  }

  ghost predicate CameFrom(r: Request, q: Query, item: Item) {
    exists limit: nat, k: nat :: Supplies(r, q, limit, k, item)
  }

  lemma {:induction false} FilterKeeps<T(!new)>(s: seq<T>, p: T -> bool)
    ensures forall x :: x in Filter(s, p) <==> x in s && p(x)
  {
    if |s| == 0 {
    } else {
      FilterKeeps(s[..|s| - 1], p);
      assert s == s[..|s| - 1] + [s[|s| - 1]];
    }
  }

  lemma RetainedAreOffered(q: Query, found: seq<Candidate>)
    ensures forall c :: c in Retained(q, found) <==> c in found && Offered(q, c)
  {
    FilterKeeps(found, OfAnchor(q.anchor.id));
  }

  /** What one answer adds to the picks. */
  predicate AddsFrom(slot: nat, cards: bool, picks: seq<Pick>, next: seq<Pick>, found: seq<Candidate>) {
    && picks <= next
    && forall j :: |picks| <= j < |next| ==>
         && next[j].slot == slot
         && exists k :: 0 <= k < |found| && found[k].loads && next[j].item == ItemOf(cards, found[k])
  }

  lemma AddOne(
    r: Request, slot: nat, cards: bool, picks: seq<Pick>, middle: seq<Pick>, found: seq<Candidate>, c: Candidate)
    requires AddsFrom(slot, cards, picks, middle, found)
    ensures var next := Admit(r, slot, cards, Some(middle), c);
            next.Some? ==> AddsFrom(slot, cards, picks, next.value, found + [c])
  {
    var all, next := found + [c], Admit(r, slot, cards, Some(middle), c);
    assert all[|found|] == c;
    if next.Some? {
      forall j | |picks| <= j < |next.value|
        ensures next.value[j].slot == slot
        ensures exists k :: 0 <= k < |all| && all[k].loads && next.value[j].item == ItemOf(cards, all[k])
      {
        if j < |middle| {
          var k :| 0 <= k < |found| && found[k].loads && middle[j].item == ItemOf(cards, found[k]);
          assert all[k] == found[k];
        }
      }
    }
  }

  lemma {:induction false} AnswerAdds(r: Request, slot: nat, cards: bool, picks: seq<Pick>, found: seq<Candidate>)
    ensures var next := Play(Admitting(r, slot, cards), Some(picks), found);
            next.Some? ==> AddsFrom(slot, cards, picks, next.value, found)
  {
    if |found| == 0 {
    } else {
      var front, last := found[..|found| - 1], found[|found| - 1];
      AnswerAdds(r, slot, cards, picks, front);
      var middle := Play(Admitting(r, slot, cards), Some(picks), front);
      if middle.Some? {
        AddOne(r, slot, cards, picks, middle.value, front, last);
        assert found == front + [last];
      }
    }
  }

  ghost predicate FromPlan(r: Request, plan: seq<Query>, p: Pick) {
    exists q :: q in plan && q.slot == p.slot && CameFrom(r, q, p.item)
  }

  lemma QueryAdds(r: Request, picks: seq<Pick>, q: Query)
    requires Ask(r, Some(picks), q).Some?
    ensures var next := Ask(r, Some(picks), q).value;
            && picks <= next
            && forall j :: |picks| <= j < |next| ==> next[j].slot == q.slot && CameFrom(r, q, next[j].item)
  {
    var limit := Left(r, picks, q.slot);
    if limit > 0 {
      var found := r.answer(q, limit).value;
      AnswerAdds(r, q.slot, q.cards, picks, Retained(q, found));
      RetainedAreOffered(q, found);
      var next := Ask(r, Some(picks), q).value;
      forall j | |picks| <= j < |next| ensures CameFrom(r, q, next[j].item) {
        var retained := Retained(q, found);
        var i :| 0 <= i < |retained| && retained[i].loads && next[j].item == ItemOf(q.cards, retained[i]);
        assert retained[i] in found;
        var k :| 0 <= k < |found| && found[k] == retained[i];
        assert Supplies(r, q, limit, k, next[j].item);
      }
    }
  }

  /** Nothing is invented: every pick was offered by a query of its slot, and loads. */
  lemma {:induction false} PicksComeFromQueries(r: Request, plan: seq<Query>)
    requires Picks(r, plan).Some?
    ensures forall j :: 0 <= j < |Picks(r, plan).value| ==> FromPlan(r, plan, Picks(r, plan).value[j])
  {
    if |plan| == 0 {
    } else {
      var front, q := plan[..|plan| - 1], plan[|plan| - 1];
      assert plan == front + [q];
      PicksComeFromQueries(r, front);
      var before, picks := Picks(r, front).value, Picks(r, plan).value;
      QueryAdds(r, before, q);
      forall j | 0 <= j < |picks| ensures FromPlan(r, plan, picks[j]) {
        if j < |before| {
          assert FromPlan(r, front, before[j]);
        } else {
          assert q in plan && CameFrom(r, q, picks[j].item);
        }
      }
    }
  }

  // --- What is missing ---

  /** The item stands in the candidate's way: drawers and cards are told apart by a prefix. */
  predicate Blocks(item: Item, q: Query, c: Candidate) {
    match item.cardId
    case None => item.drawerId == if q.cards then "card:" + c.id else c.id
    case Some(id) => if q.cards then id == c.id else "card:" + id == c.id
  }

  lemma BlocksByKey(item: Item, q: Query, c: Candidate)
    ensures Blocks(item, q, c) <==> Key(item) == Key(ItemOf(q.cards, c))
  {
    if item.cardId.Some? && q.cards {
      var id := item.cardId.value;
      assert ("card:" + id)[5..] == id && ("card:" + c.id)[5..] == c.id;
    }
  }

  predicate SlotFull(r: Request, sections: seq<Section>, slot: nat) {
    || |Flatten(sections)| >= r.maxItems
    || (slot == 0 && |ItemsNamed(sections, DaoTian)| >= r.daoTianLimit)
  }

  /** The query was answered, and an item stands in the way of every candidate it offers. */
  ghost predicate AllBlocked(r: Request, q: Query, limit: nat, items: seq<Item>) {
    && r.answer(q, limit).Some?
    && forall c :: c in r.answer(q, limit).value && Offered(q, c) ==>
      exists i :: 0 <= i < |items| && Blocks(items[i], q, c)
  }

  ghost predicate Answered(r: Request, q: Query, items: seq<Item>) {
    exists limit: nat :: limit > 0 && AllBlocked(r, q, limit, items)
  }

  // --- Why an assembly fails ---

  ghost predicate Fails(r: Request, q: Query, limit: nat) {
    && limit > 0
    && (r.answer(q, limit).None? || exists c :: c in r.answer(q, limit).value && Offered(q, c) && !c.loads)
  }

  ghost predicate Breaks(r: Request, q: Query) {
    exists limit: nat :: Fails(r, q, limit)
  }

  lemma {:induction false} AnswerBreaks(r: Request, slot: nat, cards: bool, picks: seq<Pick>, found: seq<Candidate>)
    requires Play(Admitting(r, slot, cards), Some(picks), found) == None
    ensures exists c :: c in found && !c.loads
  {
    if |found| > 0 {
      var front, last := found[..|found| - 1], found[|found| - 1];
      assert last in found;
      if Play(Admitting(r, slot, cards), Some(picks), front) == None {
        AnswerBreaks(r, slot, cards, picks, front);
      }
    }
  }

  lemma {:induction false} FailureHasACause(r: Request, plan: seq<Query>)
    requires Picks(r, plan) == None
    ensures exists q :: q in plan && Breaks(r, q)
  {
    if |plan| > 0 {
      var front, q := plan[..|plan| - 1], plan[|plan| - 1];
      assert q in plan;
      if Picks(r, front) == None {
        FailureHasACause(r, front);
      } else {
        var picks := Picks(r, front).value;
        var limit := Left(r, picks, q.slot);
        if r.answer(q, limit).Some? {
          var found := r.answer(q, limit).value;
          AnswerBreaks(r, q.slot, q.cards, picks, Retained(q, found));
          RetainedAreOffered(q, found);
        }
        assert Fails(r, q, limit);
      }
    }
  }

  // --- The sections ---

  function Rank(name: SectionName): nat {
    match name
    case DaoTian => 0
    case DaoRen => 1
    case Shu => 2
    case Qi => 3
    case Evidence => 4
    case Foresight => 5
  }

  /** No section is empty, and they come in the order of the tiers. */
  predicate Shaped(sections: seq<Section>) {
    && (forall i :: 0 <= i < |sections| ==> sections[i].items != [])
    && (forall i, j :: 0 <= i < j < |sections| ==> Rank(sections[i].name) < Rank(sections[j].name))
  }

  predicate HoldPicks(picks: seq<Pick>, sections: seq<Section>, slots: nat) {
    forall i :: 0 <= i < |sections| ==>
      Rank(sections[i].name) < slots && sections[i].items == ItemsIn(picks, Rank(sections[i].name))
  }

  lemma OneMoreSection(picks: seq<Pick>, earlier: seq<Section>, last: seq<Section>, slot: nat)
    requires slot < SLOTS && Shaped(earlier) && HoldPicks(picks, earlier, slot)
    requires last == SectionOf(picks, slot)
    ensures Shaped(earlier + last) && HoldPicks(picks, earlier + last, slot + 1)
  {
    assert |last| > 0 ==> Rank(last[0].name) == slot;
  }

  lemma {:induction false} SectionsHoldPicks(picks: seq<Pick>, slots: nat)
    requires slots <= SLOTS
    ensures Shaped(SectionsOf(picks, slots)) && HoldPicks(picks, SectionsOf(picks, slots), slots)
  {
    if slots == 0 {
    } else {
      SectionsHoldPicks(picks, slots - 1);
      OneMoreSection(picks, SectionsOf(picks, slots - 1), SectionOf(picks, slots - 1), slots - 1);
    }
  }

  lemma {:induction false} ItemsInArePicks(picks: seq<Pick>, slot: nat, item: Item)
    requires item in ItemsIn(picks, slot)
    ensures Pick(slot, item) in picks
  {
    var front, last := picks[..|picks| - 1], picks[|picks| - 1];
    assert picks == front + [last];
    if item in ItemsIn(front, slot) {
      ItemsInArePicks(front, slot, item);
    }
  }

  /** The item answers a planned query of the section it stands in. */
  ghost predicate Belongs(r: Request, anchors: seq<Anchor>, name: SectionName, item: Item) {
    exists q :: Planned(r, anchors, q) && q.slot == Rank(name) && CameFrom(r, q, item)
  }

  /** A flat context for these anchors: nothing invented, nothing left out without cause, within the budgets, without
      repetition and in order. */
  ghost predicate Faithful(r: Request, anchors: seq<Anchor>, sections: seq<Section>) {
    && (forall i, item :: 0 <= i < |sections| && item in sections[i].items ==>
          Belongs(r, anchors, sections[i].name, item))
    && (forall q :: Planned(r, anchors, q) ==> SlotFull(r, sections, q.slot) || Answered(r, q, Flatten(sections)))
    && |Flatten(sections)| <= r.maxItems && |ItemsNamed(sections, DaoTian)| <= r.daoTianLimit
    && DistinctItemKeys(Flatten(sections)) && Shaped(sections)
  }

  lemma NothingInvented(r: Request, anchors: seq<Anchor>)
    requires Assembled(r, anchors).Some?
    ensures var sections := Assembled(r, anchors).value;
            && Shaped(sections)
            && forall i, item :: 0 <= i < |sections| && item in sections[i].items ==>
                 Belongs(r, anchors, sections[i].name, item)
  {
    var plan := Plan(r, anchors, SLOTS);
    var picks, sections := Picks(r, plan).value, Assembled(r, anchors).value;
    SectionsHoldPicks(picks, SLOTS);
    PicksComeFromQueries(r, plan);
    PlanCovers(r, anchors);
    forall i, item | 0 <= i < |sections| && item in sections[i].items
      ensures Belongs(r, anchors, sections[i].name, item)
    {
      ItemsInArePicks(picks, Rank(sections[i].name), item);
      var j :| 0 <= j < |picks| && picks[j] == Pick(Rank(sections[i].name), item);
      assert FromPlan(r, plan, picks[j]);
    }
  }

  lemma TakenMeansBlocked(picks: seq<Pick>, items: seq<Item>, q: Query, c: Candidate)
    requires |items| == |picks| && forall i :: 0 <= i < |picks| ==> items[i] == picks[i].item
    requires Key(ItemOf(q.cards, c)) in Keys(picks)
    ensures exists i :: 0 <= i < |items| && Blocks(items[i], q, c)
  {
    var p :| p in picks && Key(p.item) == Key(ItemOf(q.cards, c));
    var i :| 0 <= i < |picks| && picks[i] == p;
    BlocksByKey(items[i], q, c);
  }

  lemma ServedMeansAnswered(r: Request, plan: seq<Query>, i: nat, picks: seq<Pick>, items: seq<Item>)
    requires i < |plan| && Served(r, plan, i, picks) && Left(r, picks, plan[i].slot) > 0
    requires Picks(r, plan[..i]).Some? ==>
              Left(r, picks, plan[i].slot) <= Left(r, Picks(r, plan[..i]).value, plan[i].slot)
    requires |items| == |picks| && forall j :: 0 <= j < |picks| ==> items[j] == picks[j].item
    ensures Answered(r, plan[i], items)
  {
    var q, limit := plan[i], Left(r, Picks(r, plan[..i]).value, plan[i].slot);
    RetainedAreOffered(q, r.answer(q, limit).value);
    forall c | c in r.answer(q, limit).value && Offered(q, c)
      ensures exists j :: 0 <= j < |items| && Blocks(items[j], q, c)
    {
      TakenMeansBlocked(picks, items, q, c);
    }
    assert AllBlocked(r, q, limit, items);
  }

  lemma {:induction false} PicksGrow(r: Request, plan: seq<Query>, i: nat)
    requires i <= |plan| && Picks(r, plan).Some?
    ensures Picks(r, plan[..i]).Some? && Picks(r, plan[..i]).value <= Picks(r, plan).value
  {
    if i == |plan| {
      assert plan[..i] == plan;
    } else {
      var front := plan[..|plan| - 1];
      PicksGrow(r, front, i);
      assert front[..i] == plan[..i];
      AskGrows(r, Picks(r, front).value, plan[|plan| - 1]);
    }
  }

  /** The sections show what the picks were. */
  lemma SectionsShowPicks(r: Request, anchors: seq<Anchor>)
    requires Assembled(r, anchors).Some?
    ensures var picks, sections := Picks(r, Plan(r, anchors, SLOTS)).value, Assembled(r, anchors).value;
            && |Flatten(sections)| == |picks|
            && (forall j :: 0 <= j < |picks| ==> Flatten(sections)[j] == picks[j].item)
            && ItemsNamed(sections, DaoTian) == ItemsIn(picks, 0)
  {
    var plan := Plan(r, anchors, SLOTS);
    PlanAscends(r, anchors, SLOTS);
    PicksFit(r, plan, SLOTS - 1);
    var picks := Picks(r, plan).value;
    FlattenSections(picks, SLOTS);
    AllBelow(picks, SLOTS);
    FirstTierItems(picks, SLOTS);
  }

  lemma NothingLeftOut(r: Request, anchors: seq<Anchor>, q: Query)
    requires Assembled(r, anchors).Some? && Planned(r, anchors, q)
    ensures var sections := Assembled(r, anchors).value;
            SlotFull(r, sections, q.slot) || Answered(r, q, Flatten(sections))
  {
    var plan := Plan(r, anchors, SLOTS);
    var picks, sections := Picks(r, plan).value, Assembled(r, anchors).value;
    SectionsShowPicks(r, anchors);
    PlanCovers(r, anchors);
    var i :| 0 <= i < |plan| && plan[i] == q;
    EveryQueryIsServed(r, plan, i);
    if Left(r, picks, q.slot) > 0 {
      PicksGrow(r, plan, i);
      SettledPersists(r, Picks(r, plan[..i]).value, picks, q.slot);
      ServedMeansAnswered(r, plan, i, picks, Flatten(sections));
    }
  }

  /** Flat assembly, for every database: it fails only where a planned query fails or offers what does not load, and
      otherwise is a faithful context. */
  lemma AssemblyIsFaithful(r: Request, anchors: seq<Anchor>)
    ensures Assembled(r, anchors).Some? ==> Faithful(r, anchors, Assembled(r, anchors).value)
    ensures Assembled(r, anchors).None? ==> exists q :: Planned(r, anchors, q) && Breaks(r, q)
  {
    if Assembled(r, anchors).Some? {
      AssemblyFits(r, anchors);
      NothingInvented(r, anchors);
      forall q | Planned(r, anchors, q)
        ensures SlotFull(r, Assembled(r, anchors).value, q.slot) || Answered(r, q, Flatten(Assembled(r, anchors).value))
      {
        NothingLeftOut(r, anchors, q);
      }
    } else {
      FailureHasACause(r, Plan(r, anchors, SLOTS));
      PlanCovers(r, anchors);
    }
  }
}
