/** `assemble_flat` and `append_card_context_items` (`src/context.rs`): the nested loops with their shared counters. */
module FlatAssembly {
  import opened Prelude
  import opened Machine
  import opened ContextAssembly
  import opened ContextLaws

  lemma {:induction false} EarlierSections(picks: seq<Pick>, p: Pick, slots: nat)
    requires slots <= p.slot
    ensures SectionsOf(picks + [p], slots) == SectionsOf(picks, slots)
  {
    if slots == 0 {
    } else {
      EarlierSections(picks, p, slots - 1);
      ItemsInAppend(picks, p, slots - 1);
    }
  }

  lemma LeftAfter(r: Request, picks: seq<Pick>, p: Pick)
    requires Left(r, picks, p.slot) > 0
    ensures Left(r, picks + [p], p.slot) == Left(r, picks, p.slot) - 1
  {
    ItemsInAppend(picks, p, 0);
  }

  /** A full slot admits nothing more, and a failure is final: the loops may stop. */
  lemma CandidatesStop(
    r: Request, start: Option<seq<Pick>>, slot: nat, cards: bool, found: seq<Candidate>, i: nat, end: Option<seq<Pick>>)
    requires i <= |found| && Play(Admitting(r, slot, cards), start, found[..i]) == end
    requires end.Some? ==> Left(r, end.value, slot) == 0
    ensures Play(Admitting(r, slot, cards), start, found) == end
  {
    PlayStops(Admitting(r, slot, cards), start, found, i, end);
  }

  lemma CandidatesNext(r: Request, start: Option<seq<Pick>>, slot: nat, cards: bool, found: seq<Candidate>, i: nat)
    requires i < |found|
    ensures Play(Admitting(r, slot, cards), start, found[..i + 1]) ==
            Admit(r, slot, cards, Play(Admitting(r, slot, cards), start, found[..i]), found[i])
  {
    assert found[..i + 1] == found[..i] + [found[i]];
    PlayAppend(Admitting(r, slot, cards), start, found[..i], found[i]);
  }

  lemma QueriesStop(r: Request, start: Option<seq<Pick>>, slot: nat, plan: seq<Query>, i: nat, end: Option<seq<Pick>>)
    requires i <= |plan| && Play(Asking(r), start, plan[..i]) == end
    requires end.Some? ==> Left(r, end.value, slot) == 0
    requires forall j :: 0 <= j < |plan| ==> plan[j].slot == slot
    ensures Play(Asking(r), start, plan) == end
  {
    PlayStops(Asking(r), start, plan, i, end);
  }

  lemma QueriesNext(r: Request, start: Option<seq<Pick>>, plan: seq<Query>, i: nat)
    requires i < |plan|
    ensures Play(Asking(r), start, plan[..i + 1]) == Ask(r, Play(Asking(r), start, plan[..i]), plan[i])
  {
    assert plan[..i + 1] == plan[..i] + [plan[i]];
    PlayAppend(Asking(r), start, plan[..i], plan[i]);
  }

  class Assembler {
    const r: Request
    var sections: seq<Section>
    var items: seq<Item>
    var remaining: nat
    var tierRemaining: nat
    var seen: set<string>
    ghost var picks: seq<Pick>

    constructor (r: Request)
      ensures this.r == r && Closed(0) && picks == []
    {
      this.r := r;
      sections, items, remaining, tierRemaining, seen, picks := [], [], r.maxItems, 0, {}, [];
    }

    ghost predicate Counted()
      reads this
    {
      |picks| <= r.maxItems && remaining == r.maxItems - |picks| && seen == Keys(picks)
    }

    /** Between slots: the sections of the slots before `slot` are complete. */
    ghost predicate Closed(slot: nat)
      reads this
    {
      Counted() && sections == SectionsOf(picks, slot) && forall i :: 0 <= i < |picks| ==> picks[i].slot < slot
    }

    /** Inside a slot: `items` is being filled. */
    ghost predicate Open(slot: nat)
      reads this
    {
      && Counted() && sections == SectionsOf(picks, slot) && UpTo(picks, slot)
      && tierRemaining == Left(r, picks, slot) && items == ItemsIn(picks, slot)
    }

    method Take(slot: nat, cards: bool, c: Candidate)
      requires Open(slot) && tierRemaining > 0 && Key(ItemOf(cards, c)) !in seen && c.loads
      modifies this
      ensures Open(slot) && Some(picks) == Admit(r, slot, cards, Some(old(picks)), c)
    {
      ghost var p := Pick(slot, ItemOf(cards, c));
      KeysAppend(picks, p);
      EarlierSections(picks, p, slot);
      LeftAfter(r, picks, p);
      ItemsInAppend(picks, p, slot);
      seen := seen + {Key(ItemOf(cards, c))};
      items := items + [ItemOf(cards, c)];
      remaining := remaining - 1;
      tierRemaining := tierRemaining - 1;
      picks := picks + [p];
    }

    method Offer(slot: nat, cards: bool, c: Candidate) returns (ok: bool)
      requires Open(slot) && tierRemaining > 0
      modifies this
      ensures ok ==> Open(slot)
      ensures Admit(r, slot, cards, Some(old(picks)), c) == if ok then Some(picks) else None
    {
      if Key(ItemOf(cards, c)) in seen {
        return true;
      }
      if !c.loads {
        return false;
      }
      Take(slot, cards, c);
      ok := true;
    }

    method TakeAll(slot: nat, cards: bool, found: seq<Candidate>) returns (ok: bool)
      requires Open(slot)
      modifies this
      ensures ok ==> Open(slot)
      ensures Play(Admitting(r, slot, cards), Some(old(picks)), found) == if ok then Some(picks) else None
    {
      ghost var start := Some(picks);
      for i := 0 to |found|
        invariant Open(slot) && Play(Admitting(r, slot, cards), start, found[..i]) == Some(picks)
      {
        if remaining == 0 || tierRemaining == 0 {
          CandidatesStop(r, start, slot, cards, found, i, Some(picks));
          return true;
        }
        CandidatesNext(r, start, slot, cards, found, i);
        ok := Offer(slot, cards, found[i]);
        if !ok {
          CandidatesStop(r, start, slot, cards, found, i + 1, None);
          return;
        }
      }
      assert found[..|found|] == found;
      ok := true;
    }

    method AskOne(q: Query) returns (ok: bool)
      requires Open(q.slot) && tierRemaining > 0
      modifies this
      ensures ok ==> Open(q.slot)
      ensures Ask(r, Some(old(picks)), q) == if ok then Some(picks) else None
    {
      var found := r.answer(q, tierRemaining);
      if found.None? {
        return false;
      }
      ok := TakeAll(q.slot, q.cards, Retained(q, found.value));
    }

    method AskAnchor(slot: nat, cards: bool, anchor: Anchor, statuses: seq<Option<Status>>) returns (ok: bool)
      requires Open(slot)
      modifies this
      ensures ok ==> Open(slot)
      ensures Play(Asking(r), Some(old(picks)), ForAnchor(slot, cards, anchor, statuses)) ==
              if ok then Some(picks) else None
    {
      ghost var start, plan := Some(picks), ForAnchor(slot, cards, anchor, statuses);
      for i := 0 to |statuses|
        invariant Open(slot) && Play(Asking(r), start, plan[..i]) == Some(picks)
      {
        if remaining == 0 || tierRemaining == 0 {
          QueriesStop(r, start, slot, plan, i, Some(picks));
          return true;
        }
        QueriesNext(r, start, plan, i);
        ok := AskOne(Query(slot, cards, anchor, statuses[i]));
        if !ok {
          QueriesStop(r, start, slot, plan, i + 1, None);
          return;
        }
      }
      assert plan[..|plan|] == plan;
      ok := true;
    }

    method AskAll(slot: nat, cards: bool, anchors: seq<Anchor>, statuses: seq<Option<Status>>) returns (ok: bool)
      requires Open(slot)
      modifies this
      ensures ok ==> Open(slot)
      ensures Play(Asking(r), Some(old(picks)), ForAnchors(slot, cards, anchors, statuses)) ==
              if ok then Some(picks) else None
    {
      ghost var start := Some(picks);
      for i := 0 to |anchors|
        invariant Open(slot) && Play(Asking(r), start, ForAnchors(slot, cards, anchors[..i], statuses)) == Some(picks)
      {
        if remaining == 0 || tierRemaining == 0 {
          AnchorsStop(r, start, slot, cards, anchors, statuses, i, Some(picks));
          return true;
        }
        AnchorsNext(r, start, slot, cards, anchors, statuses, i);
        ok := AskAnchor(slot, cards, anchors[i], statuses);
        if !ok {
          AnchorsStop(r, start, slot, cards, anchors, statuses, i + 1, None);
          return;
        }
      }
      assert anchors[..|anchors|] == anchors;
      ok := true;
    }

    method OpenSlot(slot: nat)
      requires Closed(slot)
      modifies this
      ensures Open(slot) && picks == old(picks)
    {
      ItemsInNone(picks, slot);
      assert slot == 0 ==> picks == [];
      tierRemaining := if slot == 0 && r.daoTianLimit < remaining then r.daoTianLimit else remaining;
      items := [];
    }

    method CloseSlot(slot: nat)
      requires Open(slot)
      modifies this
      ensures Closed(slot + 1) && picks == old(picks)
    {
      if items != [] {
        sections := sections + [Section(Name(slot), items)];
      }
    }

    /** The searches of a slot, then the tier's cards. */
    method AskSlot(slot: nat, anchors: seq<Anchor>) returns (ok: bool)
      requires Open(slot)
      modifies this
      ensures ok ==> Open(slot)
      ensures Play(Asking(r), Some(old(picks)), SlotPlan(r, anchors, slot)) == if ok then Some(picks) else None
    {
      if tierRemaining == 0 || (slot >= 4 && !r.includeEvidence) {
        SlotPlanSlots(r, anchors, slot);
        FullStaysFor(r, picks, SlotPlan(r, anchors, slot), slot);
        return true;
      }
      ghost var start := Some(picks);
      ok := AskAll(slot, false, anchors, Statuses(slot));
      if slot >= 4 || !r.includeCards {
        NoCards(r, anchors, slot);
        return;
      }
      CardsFollow(r, start, anchors, slot);
      if ok && remaining > 0 {
        ok := AskAll(slot, true, anchors, Statuses(slot));
      } else if ok {
        ForAnchorsSlots(slot, true, anchors, Statuses(slot));
        FullStaysFor(r, picks, ForAnchors(slot, true, anchors, Statuses(slot)), slot);
      } else {
        FailureIsFinal(r, ForAnchors(slot, true, anchors, Statuses(slot)));
      }
    }

    method FillSlots(anchors: seq<Anchor>, slots: nat) returns (ok: bool)
      requires Closed(0) && picks == []
      modifies this
      ensures ok ==> Closed(slots)
      ensures Picks(r, Plan(r, anchors, slots)) == if ok then Some(picks) else None
    {
      for slot := 0 to slots
        invariant Closed(slot) && Picks(r, Plan(r, anchors, slot)) == Some(picks)
      {
        PlanNext(r, anchors, slot);
        OpenSlot(slot);
        ok := AskSlot(slot, anchors);
        if !ok {
          FailedStays(r, anchors, slot + 1, slots);
          return;
        }
        CloseSlot(slot);
      }
      ok := true;
    }

    /** The whole assembly is the flat reference: same sections, same failures. */
    method AssembleFlat(anchors: seq<Anchor>) returns (ok: bool)
      requires Closed(0) && picks == []
      modifies this
      ensures Assembled(r, anchors) == if ok then Some(sections) else None
      ensures ok ==> Faithful(r, anchors, sections)
      ensures !ok ==> exists q :: Planned(r, anchors, q) && Breaks(r, q)
    {
      ok := FillSlots(anchors, SLOTS);
      AssemblyIsFaithful(r, anchors);
    }
  }

  lemma PlanNext(r: Request, anchors: seq<Anchor>, slot: nat)
    ensures Picks(r, Plan(r, anchors, slot + 1)) ==
            Play(Asking(r), Picks(r, Plan(r, anchors, slot)), SlotPlan(r, anchors, slot))
  {
    PlayConcat(Asking(r), Some([]), Plan(r, anchors, slot), SlotPlan(r, anchors, slot));
  }

  lemma NoCards(r: Request, anchors: seq<Anchor>, slot: nat)
    requires if slot >= 4 then r.includeEvidence else !r.includeCards
    ensures SlotPlan(r, anchors, slot) == ForAnchors(slot, false, anchors, Statuses(slot))
  {
  }

  lemma CardsFollow(r: Request, start: Option<seq<Pick>>, anchors: seq<Anchor>, slot: nat)
    requires slot < 4 && r.includeCards
    ensures Play(Asking(r), start, SlotPlan(r, anchors, slot)) ==
            Play(Asking(r), Play(Asking(r), start, ForAnchors(slot, false, anchors, Statuses(slot))),
                 ForAnchors(slot, true, anchors, Statuses(slot)))
  {
    PlayConcat(Asking(r), start, ForAnchors(slot, false, anchors, Statuses(slot)),
               ForAnchors(slot, true, anchors, Statuses(slot)));
  }

  lemma AnchorsNext(r: Request, start: Option<seq<Pick>>, slot: nat, cards: bool, anchors: seq<Anchor>,
    statuses: seq<Option<Status>>, i: nat)
    requires i < |anchors|
    ensures Play(Asking(r), start, ForAnchors(slot, cards, anchors[..i + 1], statuses)) ==
            Play(Asking(r), Play(Asking(r), start, ForAnchors(slot, cards, anchors[..i], statuses)),
                 ForAnchor(slot, cards, anchors[i], statuses))
  {
    assert anchors[..i + 1][..i] == anchors[..i];
    PlayConcat(Asking(r), start, ForAnchors(slot, cards, anchors[..i], statuses),
               ForAnchor(slot, cards, anchors[i], statuses));
  }

  /** Once a slot is full, or a query failed, the remaining anchors change nothing. */
  lemma {:induction false} AnchorsStop(
    r: Request, start: Option<seq<Pick>>, slot: nat, cards: bool, anchors: seq<Anchor>,
    statuses: seq<Option<Status>>, i: nat, end: Option<seq<Pick>>)
    requires i <= |anchors| && Play(Asking(r), start, ForAnchors(slot, cards, anchors[..i], statuses)) == end
    requires end.Some? ==> Left(r, end.value, slot) == 0
    ensures Play(Asking(r), start, ForAnchors(slot, cards, anchors, statuses)) == end
  {
    if i == |anchors| {
      assert anchors[..i] == anchors;
    } else {
      var n := |anchors| - 1;
      assert anchors[..n][..i] == anchors[..i] && anchors[..n + 1] == anchors;
      AnchorsStop(r, start, slot, cards, anchors[..n], statuses, i, end);
      AnchorsNext(r, start, slot, cards, anchors, statuses, n);
      assert ForAnchor(slot, cards, anchors[n], statuses)[..0] == [];
      QueriesStop(r, end, slot, ForAnchor(slot, cards, anchors[n], statuses), 0, end);
    }
  }

  lemma FullStaysFor(r: Request, picks: seq<Pick>, plan: seq<Query>, slot: nat)
    requires Left(r, picks, slot) == 0 || plan == []
    requires forall i :: 0 <= i < |plan| ==> plan[i].slot == slot
    ensures Play(Asking(r), Some(picks), plan) == Some(picks)
  {
    if plan != [] {
      assert plan[..0] == [];
      QueriesStop(r, Some(picks), slot, plan, 0, Some(picks));
    }
  }

  lemma FailureIsFinal(r: Request, plan: seq<Query>)
    ensures Play(Asking(r), None, plan) == None
  {
    PlayIdle(Asking(r), None, plan);
  }

  lemma FailedNext(r: Request, anchors: seq<Anchor>, slot: nat)
    requires Picks(r, Plan(r, anchors, slot)) == None
    ensures Picks(r, Plan(r, anchors, slot + 1)) == None
  {
    PlanNext(r, anchors, slot);
    FailureIsFinal(r, SlotPlan(r, anchors, slot));
  }

  lemma {:induction false} FailedStays(r: Request, anchors: seq<Anchor>, slot: nat, slots: nat)
    requires slot <= slots && Picks(r, Plan(r, anchors, slot)) == None
    ensures Picks(r, Plan(r, anchors, slots)) == None
  {
    if slot == slots {
    } else {
      FailedStays(r, anchors, slot, slots - 1);
      FailedNext(r, anchors, slots - 1);
    }
  }
}
