/** The flat context assembler (`src/context.rs`): nested loops over tiers, anchors and statuses that share an item
    budget, a first-tier budget and a set of seen keys, against a reference that asks a flat list of queries. */
module ContextAssembly {
  import opened Prelude
  import opened Machine

  datatype Item = Item(drawerId: string, cardId: Option<string>, anchorId: string, text: string)
  datatype SectionName = DaoTian | DaoRen | Shu | Qi | Evidence | Foresight
  datatype Section = Section(name: SectionName, items: seq<Item>)
  datatype Anchor = Anchor(kind: string, id: string, domain: string)
  datatype Status = Canonical | Promoted

  /** A search result or a knowledge card; `loads` says whether building its context item succeeds. */
  datatype Candidate = Candidate(id: string, anchorId: string, text: string, loads: bool)

  /** Slots 0 to 3 are the tiers in order and slot 4 is the evidence section. */
  datatype Query = Query(slot: nat, cards: bool, anchor: Anchor, status: Option<Status>)

  /** `answer` is the database: what a query with a given result limit returns, if it does not fail. */
  datatype Request = Request(
    maxItems: nat, daoTianLimit: nat, includeCards: bool, includeEvidence: bool,
    answer: (Query, nat) -> Option<seq<Candidate>>)

  const SLOTS: nat := 5

  function Name(slot: nat): SectionName {
    match slot
    case 0 => DaoTian
    case 1 => DaoRen
    case 2 => Shu
    case 3 => Qi
    case _ => Evidence
  }

  /** The key a candidate is remembered under: cards have their own namespace. */
  function Key(item: Item): string {
    match item.cardId
    case None => item.drawerId
    case Some(id) => "card:" + id
  }

  function ItemOf(cards: bool, c: Candidate): Item {
    Item(c.id, if cards then Some(c.id) else None, c.anchorId, c.text)
  }

  // --- The reference: one candidate after the other, one query after the other ---

  datatype Pick = Pick(slot: nat, item: Item)

  function Keys(picks: seq<Pick>): set<string> {
    set p | p in picks :: Key(p.item)
  }

  function ItemsIn(picks: seq<Pick>, slot: nat): seq<Item> {
    if picks == [] then [] else
      var front := ItemsIn(picks[..|picks| - 1], slot);
      if picks[|picks| - 1].slot == slot then front + [picks[|picks| - 1].item] else front
  }

  /** How many more items a slot may take. */
  function Left(r: Request, picks: seq<Pick>, slot: nat): nat {
    var all := SatSub(r.maxItems, |picks|);
    var tier := SatSub(r.daoTianLimit, |ItemsIn(picks, 0)|);
    if slot == 0 && tier < all then tier else all
  }

  function Admit(r: Request, slot: nat, cards: bool, state: Option<seq<Pick>>, c: Candidate): Option<seq<Pick>> {
    match state
    case None => None
    case Some(picks) =>
      if Left(r, picks, slot) == 0 || Key(ItemOf(cards, c)) in Keys(picks) then state
      else if !c.loads then None
      else Some(picks + [Pick(slot, ItemOf(cards, c))])
  }

  function Admitting(r: Request, slot: nat, cards: bool): (Option<seq<Pick>>, Candidate) -> Option<seq<Pick>> {
    (state, c) => Admit(r, slot, cards, state, c)
  }

  function OfAnchor(id: string): Candidate -> bool {
    (c: Candidate) => c.anchorId == id
  }

  /** Search results of another anchor are dropped; cards are already filtered by the query. */
  function Retained(q: Query, found: seq<Candidate>): seq<Candidate> {
    if q.cards then found else Filter(found, OfAnchor(q.anchor.id))
  }

  function Ask(r: Request, state: Option<seq<Pick>>, q: Query): Option<seq<Pick>> {
    match state
    case None => None
    case Some(picks) =>
      if Left(r, picks, q.slot) == 0 then state
      else match r.answer(q, Left(r, picks, q.slot))
        case None => None
        case Some(found) => Play(Admitting(r, q.slot, q.cards), state, Retained(q, found))
  }

  function Asking(r: Request): (Option<seq<Pick>>, Query) -> Option<seq<Pick>> {
    (state, q) => Ask(r, state, q)
  }

  function ForAnchor(slot: nat, cards: bool, anchor: Anchor, statuses: seq<Option<Status>>): seq<Query> {
    seq(|statuses|, i requires 0 <= i < |statuses| => Query(slot, cards, anchor, statuses[i]))
  }

  function ForAnchors(slot: nat, cards: bool, anchors: seq<Anchor>, statuses: seq<Option<Status>>): seq<Query> {
    if anchors == [] then [] else
      ForAnchors(slot, cards, anchors[..|anchors| - 1], statuses) +
      ForAnchor(slot, cards, anchors[|anchors| - 1], statuses)
  }

  const ACTIVE: seq<Option<Status>> := [Some(Canonical), Some(Promoted)]

  function Statuses(slot: nat): seq<Option<Status>> {
    if slot < 4 then ACTIVE else [None]
  }

  /** The queries of one slot: a tier's searches, then its cards; or the evidence searches. */
  function SlotPlan(r: Request, anchors: seq<Anchor>, slot: nat): seq<Query> {
    if slot < 4 then
      ForAnchors(slot, false, anchors, Statuses(slot)) +
      (if r.includeCards then ForAnchors(slot, true, anchors, Statuses(slot)) else [])
    else if r.includeEvidence then ForAnchors(slot, false, anchors, Statuses(slot)) else []
  }

  function Plan(r: Request, anchors: seq<Anchor>, slots: nat): seq<Query> {
    if slots == 0 then [] else Plan(r, anchors, slots - 1) + SlotPlan(r, anchors, slots - 1)
  }

  function Picks(r: Request, plan: seq<Query>): Option<seq<Pick>> {
    Play(Asking(r), Some([]), plan)
  }

  function SectionOf(picks: seq<Pick>, slot: nat): seq<Section> {
    if ItemsIn(picks, slot) == [] then [] else [Section(Name(slot), ItemsIn(picks, slot))]
  }

  function SectionsOf(picks: seq<Pick>, slots: nat): seq<Section> {
    if slots == 0 then [] else SectionsOf(picks, slots - 1) + SectionOf(picks, slots - 1)
  }

  function Flatten(sections: seq<Section>): seq<Item> {
    if sections == [] then [] else Flatten(sections[..|sections| - 1]) + sections[|sections| - 1].items
  }

  // --- What the reference guarantees ---

  predicate DistinctKeys(picks: seq<Pick>) {
    forall i, j :: 0 <= i < j < |picks| ==> Key(picks[i].item) != Key(picks[j].item)
  }

  predicate InOrder(picks: seq<Pick>) {
    forall i, j :: 0 <= i < j < |picks| ==> picks[i].slot <= picks[j].slot
  }

  predicate UpTo(picks: seq<Pick>, slot: nat) {
    forall i :: 0 <= i < |picks| ==> picks[i].slot <= slot
  }

  predicate Fits(r: Request, picks: seq<Pick>) {
    && |picks| <= r.maxItems && |ItemsIn(picks, 0)| <= r.daoTianLimit
    && DistinctKeys(picks) && InOrder(picks)
  }

  lemma ItemsInAppend(picks: seq<Pick>, p: Pick, slot: nat)
    ensures ItemsIn(picks + [p], slot) == ItemsIn(picks, slot) + (if p.slot == slot then [p.item] else [])
  {
    assert (picks + [p])[..|picks|] == picks;
  }

  lemma {:induction false} ItemsInNone(picks: seq<Pick>, slot: nat)
    requires forall i :: 0 <= i < |picks| ==> picks[i].slot != slot
    ensures ItemsIn(picks, slot) == []
  {
    if picks == [] {
    } else {
      ItemsInNone(picks[..|picks| - 1], slot);
    }
  }

  lemma KeysAppend(picks: seq<Pick>, p: Pick)
    ensures Keys(picks + [p]) == Keys(picks) + {Key(p.item)}
  {
    var all := picks + [p];
    assert all[|picks|] == p;
    assert forall x :: x in all <==> x in picks || x == p;
  }

  /** Admitting one candidate keeps the budgets, the order and the distinctness of keys. */
  lemma AdmitFits(r: Request, slot: nat, cards: bool, picks: seq<Pick>, c: Candidate)
    requires Fits(r, picks) && UpTo(picks, slot)
    ensures var next := Admit(r, slot, cards, Some(picks), c);
            next.Some? ==> Fits(r, next.value) && UpTo(next.value, slot)
  {
    var p := Pick(slot, ItemOf(cards, c));
    ItemsInAppend(picks, p, 0);
    if Key(p.item) !in Keys(picks) {
      forall i | 0 <= i < |picks| ensures Key(picks[i].item) != Key(p.item) {
        assert picks[i] in picks;
      }
    }
  }

  lemma {:induction false} AdmitAllFits(r: Request, slot: nat, cards: bool, picks: seq<Pick>, found: seq<Candidate>)
    requires Fits(r, picks) && UpTo(picks, slot)
    ensures var next := Play(Admitting(r, slot, cards), Some(picks), found);
            next.Some? ==> Fits(r, next.value) && UpTo(next.value, slot)
  {
    if found == [] {
    } else {
      AdmitAllFits(r, slot, cards, picks, found[..|found| - 1]);
      var middle := Play(Admitting(r, slot, cards), Some(picks), found[..|found| - 1]);
      if middle.Some? {
        AdmitFits(r, slot, cards, middle.value, found[|found| - 1]);
      }
    }
  }

  predicate Ascending(plan: seq<Query>) {
    forall i, j :: 0 <= i < j < |plan| ==> plan[i].slot <= plan[j].slot
  }

  /** Whatever the database answers: the item cap, the first-tier cap, no repeated key, tiers in order. */
  lemma {:induction false} PicksFit(r: Request, plan: seq<Query>, slot: nat)
    requires Ascending(plan) && forall i :: 0 <= i < |plan| ==> plan[i].slot <= slot
    ensures Picks(r, plan).Some? ==> Fits(r, Picks(r, plan).value) && UpTo(Picks(r, plan).value, slot)
  {
    if plan == [] {
    } else {
      var front, q := plan[..|plan| - 1], plan[|plan| - 1];
      PicksFit(r, front, q.slot);
      var before := Picks(r, front);
      if before.Some? && Left(r, before.value, q.slot) > 0 {
        var found := r.answer(q, Left(r, before.value, q.slot));
        if found.Some? {
          AdmitAllFits(r, q.slot, q.cards, before.value, Retained(q, found.value));
        }
      }
    }
  }

  // --- Nothing offered is left out without cause ---

  lemma {:induction false} ItemsInGrows(early: seq<Pick>, late: seq<Pick>, slot: nat)
    requires early <= late
    ensures |ItemsIn(early, slot)| <= |ItemsIn(late, slot)|
  {
    if early == late {
    } else {
      ItemsInGrows(early, late[..|late| - 1], slot);
    }
  }

  /** The candidate's key is taken, or its slot has no room. */
  predicate Settled(r: Request, picks: seq<Pick>, slot: nat, cards: bool, c: Candidate) {
    Left(r, picks, slot) == 0 || Key(ItemOf(cards, c)) in Keys(picks)
  }

  lemma SettledPersists(r: Request, early: seq<Pick>, late: seq<Pick>, slot: nat)
    requires early <= late
    ensures Left(r, late, slot) <= Left(r, early, slot) && Keys(early) <= Keys(late)
  {
    ItemsInGrows(early, late, 0);
    forall p | p in early ensures p in late {
      var i :| 0 <= i < |early| && early[i] == p;
      assert late[i] == p;
    }
  }

  lemma AdmitSettles(r: Request, slot: nat, cards: bool, picks: seq<Pick>, c: Candidate)
    ensures var next := Admit(r, slot, cards, Some(picks), c);
            next.Some? ==> picks <= next.value && Settled(r, next.value, slot, cards, c)
  {
    KeysAppend(picks, Pick(slot, ItemOf(cards, c)));
  }

  lemma {:induction false} AdmitAllSettles(r: Request, slot: nat, cards: bool, picks: seq<Pick>, found: seq<Candidate>)
    ensures var next := Play(Admitting(r, slot, cards), Some(picks), found);
            next.Some? ==> picks <= next.value && forall c :: c in found ==> Settled(r, next.value, slot, cards, c)
  {
    if found == [] {
    } else {
      var front, last := found[..|found| - 1], found[|found| - 1];
      AdmitAllSettles(r, slot, cards, picks, front);
      var middle := Play(Admitting(r, slot, cards), Some(picks), front);
      if middle.Some? {
        AdmitSettles(r, slot, cards, middle.value, last);
        var next := Admit(r, slot, cards, middle, last);
        if next.Some? {
          SettledPersists(r, middle.value, next.value, slot);
          assert found == front + [last];
        }
      }
    }
  }

  lemma AskGrows(r: Request, picks: seq<Pick>, q: Query)
    ensures Ask(r, Some(picks), q).Some? ==> picks <= Ask(r, Some(picks), q).value
  {
    var found := r.answer(q, Left(r, picks, q.slot));
    if found.Some? {
      AdmitAllSettles(r, q.slot, q.cards, picks, Retained(q, found.value));
    }
  }

  /** Query `i` of a run: its slot ended up full, or it was answered and every candidate it retained has its key
      taken. */
  ghost predicate Served(r: Request, plan: seq<Query>, i: nat, picks: seq<Pick>)
    requires i < |plan|
  {
    var before := Picks(r, plan[..i]);
    Left(r, picks, plan[i].slot) == 0 ||
    (before.Some? && AllTaken(r, plan[i], r.answer(plan[i], Left(r, before.value, plan[i].slot)), picks))
  }

  predicate AllTaken(r: Request, q: Query, found: Option<seq<Candidate>>, picks: seq<Pick>) {
    found.Some? && forall c :: c in Retained(q, found.value) ==> Key(ItemOf(q.cards, c)) in Keys(picks)
  }

  lemma AskServes(r: Request, picks: seq<Pick>, q: Query)
    requires Ask(r, Some(picks), q).Some?
    ensures var next := Ask(r, Some(picks), q).value;
            Left(r, next, q.slot) == 0 || AllTaken(r, q, r.answer(q, Left(r, picks, q.slot)), next)
  {
    if Left(r, picks, q.slot) > 0 {
      AdmitAllSettles(r, q.slot, q.cards, picks, Retained(q, r.answer(q, Left(r, picks, q.slot)).value));
    }
  }

  /** In a run that succeeds, a candidate that was offered is missing only if its key was taken or its slot is full. */
  lemma {:induction false} EveryQueryIsServed(r: Request, plan: seq<Query>, i: nat)
    requires i < |plan| && Picks(r, plan).Some?
    ensures Served(r, plan, i, Picks(r, plan).value)
  {
    var front, q := plan[..|plan| - 1], plan[|plan| - 1];
    var before := Picks(r, front);
    assert before.Some?;
    if i == |plan| - 1 {
      AskServes(r, before.value, q);
    } else {
      EveryQueryIsServed(r, front, i);
      assert front[..i] == plan[..i];
      AskGrows(r, before.value, q);
      SettledPersists(r, before.value, Picks(r, plan).value, plan[i].slot);
    }
  }

  // --- Sections and their order ---

  lemma {:induction false} ForAnchorsSlots(slot: nat, cards: bool, anchors: seq<Anchor>, statuses: seq<Option<Status>>)
    ensures forall i :: 0 <= i < |ForAnchors(slot, cards, anchors, statuses)| ==>
              ForAnchors(slot, cards, anchors, statuses)[i].slot == slot
  {
    if anchors == [] {
    } else {
      ForAnchorsSlots(slot, cards, anchors[..|anchors| - 1], statuses);
    }
  }

  lemma SlotPlanSlots(r: Request, anchors: seq<Anchor>, slot: nat)
    ensures forall i :: 0 <= i < |SlotPlan(r, anchors, slot)| ==> SlotPlan(r, anchors, slot)[i].slot == slot
  {
    ForAnchorsSlots(slot, false, anchors, Statuses(slot));
    ForAnchorsSlots(slot, true, anchors, Statuses(slot));
  }

  lemma AscendingConcat(a: seq<Query>, b: seq<Query>, slot: nat)
    requires Ascending(a) && forall i :: 0 <= i < |a| ==> a[i].slot < slot
    requires forall i :: 0 <= i < |b| ==> b[i].slot == slot
    ensures Ascending(a + b) && forall i :: 0 <= i < |a + b| ==> (a + b)[i].slot <= slot
  {
  }

  lemma {:induction false} PlanAscends(r: Request, anchors: seq<Anchor>, slots: nat)
    ensures Ascending(Plan(r, anchors, slots))
    ensures forall i :: 0 <= i < |Plan(r, anchors, slots)| ==> Plan(r, anchors, slots)[i].slot < slots
  {
    if slots == 0 {
    } else {
      PlanAscends(r, anchors, slots - 1);
      SlotPlanSlots(r, anchors, slots - 1);
      AscendingConcat(Plan(r, anchors, slots - 1), SlotPlan(r, anchors, slots - 1), slots - 1);
    }
  }

  function ItemsBelow(picks: seq<Pick>, slots: nat): seq<Item> {
    if picks == [] then [] else
      var front := ItemsBelow(picks[..|picks| - 1], slots);
      if picks[|picks| - 1].slot < slots then front + [picks[|picks| - 1].item] else front
  }

  lemma {:induction false} SlotSplits(picks: seq<Pick>, slot: nat)
    requires InOrder(picks)
    ensures ItemsBelow(picks, slot + 1) == ItemsBelow(picks, slot) + ItemsIn(picks, slot)
  {
    if picks == [] {
    } else {
      SlotSplits(picks[..|picks| - 1], slot);
      if picks[|picks| - 1].slot < slot {
        ItemsInNone(picks, slot);
        ItemsInNone(picks[..|picks| - 1], slot);
      }
    }
  }

  /** One more slot, whatever was flattened before it. */
  lemma FlattenStep(earlier: seq<Section>, last: seq<Section>, before: seq<Item>, items: seq<Item>)
    requires Flatten(earlier) == before && |last| <= 1 && items == if last == [] then [] else last[0].items
    ensures Flatten(earlier + last) == before + items
  {
    FlattenAppend(earlier, last);
  }

  /** The sections of the first slots hold the picks of those slots, in order: none lost, none doubled. */
  predicate FlattensTo(picks: seq<Pick>, slots: nat) {
    Flatten(SectionsOf(picks, slots)) == ItemsBelow(picks, slots)
  }

  lemma FlattenSlot(picks: seq<Pick>, slot: nat)
    requires InOrder(picks) && FlattensTo(picks, slot)
    ensures FlattensTo(picks, slot + 1)
  {
    SlotSplits(picks, slot);
    FlattenStep(SectionsOf(picks, slot), SectionOf(picks, slot), ItemsBelow(picks, slot), ItemsIn(picks, slot));
  }

  lemma FlattenSections(picks: seq<Pick>, slots: nat)
    requires InOrder(picks)
    ensures FlattensTo(picks, slots)
  {
    var n: nat := 0;
    FlattenNone(picks, n);
    while n < slots
      invariant n <= slots && FlattensTo(picks, n)
    {
      FlattenSlot(picks, n);
      n := n + 1;
    }
  }

  lemma {:induction false} NoneBelow(picks: seq<Pick>, slots: nat)
    requires slots == 0
    ensures ItemsBelow(picks, slots) == []
  {
    if picks == [] {
    } else {
      NoneBelow(picks[..|picks| - 1], slots);
    }
  }

  lemma FlattenNone(picks: seq<Pick>, slots: nat)
    requires slots == 0
    ensures FlattensTo(picks, slots)
  {
    NoneBelow(picks, slots);
  }

  lemma FlattenAppend(sections: seq<Section>, more: seq<Section>)
    requires |more| <= 1
    ensures Flatten(sections + more) == Flatten(sections) + (if more == [] then [] else more[0].items)
  {
    if more == [] {
      assert sections + more == sections;
    } else {
      assert (sections + more)[..|sections|] == sections;
    }
  }

  lemma {:induction false} AllBelow(picks: seq<Pick>, slots: nat)
    requires forall i :: 0 <= i < |picks| ==> picks[i].slot < slots
    ensures |ItemsBelow(picks, slots)| == |picks|
    ensures forall i :: 0 <= i < |picks| ==> ItemsBelow(picks, slots)[i] == picks[i].item
  {
    if picks == [] {
    } else {
      AllBelow(picks[..|picks| - 1], slots);
    }
  }

  predicate DistinctItemKeys(items: seq<Item>) {
    forall i, j :: 0 <= i < j < |items| ==> Key(items[i]) != Key(items[j])
  }

  function Assembled(r: Request, anchors: seq<Anchor>): Option<seq<Section>> {
    match Picks(r, Plan(r, anchors, SLOTS))
    case None => None
    case Some(picks) => Some(SectionsOf(picks, SLOTS))
  }

  /** The items of every section of that name. */
  function ItemsNamed(sections: seq<Section>, name: SectionName): seq<Item> {
    if sections == [] then [] else
      var front := ItemsNamed(sections[..|sections| - 1], name);
      if sections[|sections| - 1].name == name then front + sections[|sections| - 1].items else front
  }

  lemma {:induction false} FirstTierItems(picks: seq<Pick>, slots: nat)
    requires 1 <= slots
    ensures ItemsNamed(SectionsOf(picks, slots), DaoTian) == ItemsIn(picks, 0)
  {
    var front, last := SectionsOf(picks, slots - 1), SectionOf(picks, slots - 1);
    if last == [] {
      assert front + last == front;
    } else {
      assert (front + last)[..|front|] == front;
    }
    if slots > 1 {
      FirstTierItems(picks, slots - 1);
    }
  }

  /** Flat assembly, for every database: the item cap, the first-tier cap and no repeated key. */
  lemma AssemblyFits(r: Request, anchors: seq<Anchor>)
    requires Assembled(r, anchors).Some?
    ensures var sections := Assembled(r, anchors).value;
            && |Flatten(sections)| <= r.maxItems
            && |ItemsNamed(sections, DaoTian)| <= r.daoTianLimit
            && DistinctItemKeys(Flatten(sections))
  {
    var plan := Plan(r, anchors, SLOTS);
    PlanAscends(r, anchors, SLOTS);
    PicksFit(r, plan, SLOTS - 1);
    var picks := Picks(r, plan).value;
    FlattenSections(picks, SLOTS);
    AllBelow(picks, SLOTS);
    FirstTierItems(picks, SLOTS);
  }
}
