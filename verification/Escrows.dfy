/** What becomes of the entries of the missing-anchor escrow when their slot is retried and stays free: those that can
    still be replayed are kept where they belong, and all others are dropped. */
module Escrows {
  import opened Outcomes
  import opened RegistryTables
  import opened InsertionSets
  import opened RegistryStore
  import opened RegistryRules
  import opened RegistryProtocol
  import opened RegistryInvariants
  import opened RegistryAnchors
  import opened Arbitration

  predicate InMissing(t: Tables, slot: Slot, s: Said) {
    s in Entries(t.maes, slot)
  }

  predicate InQueue(t: Tables, slot: Slot, s: Said) {
    s in Entries(t.ooes, slot)
  }

  predicate SamePlaces(t: Tables, t': Tables, slot: Slot, s: Said) {
    (InMissing(t', slot, s) <==> InMissing(t, slot, s)) && (InQueue(t', slot, s) <==> InQueue(t, slot, s))
  }

  // ----- gathering ---------------------------------------------------------------------------

  lemma ClearedPlaces(t: Tables, slot: Slot, x: Said, s: Said)
    requires Lists(t)
    ensures var t' := Cleared(t, slot, x);
            && Lists(t') && (s != x ==> SamePlaces(t, t', slot, s))
            && (s == x ==> !InMissing(t', slot, s) && !InQueue(t', slot, s))
  {
    ClearedLists(t, slot, x);
    RemMembers(Entries(t.maes, slot), x, s);
    RemMembers(Entries(t.ooes, slot), x, s);
  }

  predicate Dropped(t: Tables, slot: Slot, s: Said) {
    !InMissing(t, slot, s) && !InQueue(t, slot, s)
  }

  lemma GatherNextPlaces(w: World, t: Tables, bound: Option<Said>, issuer: string, kel: Kel, slot: Slot, x: Said,
                         usable: map<Said, Serder>, s: Said)
    requires Bodies(w, t) && Lists(t)
    ensures var t1 := GatherNext(t, bound, issuer, kel, slot, x, usable).0;
            && Lists(t1)
            && (Replayable(t, bound, issuer, s) ==> SamePlaces(t, t1, slot, s))
            && (!Replayable(t, bound, issuer, s) && (s == x || Dropped(t, slot, s)) ==> Dropped(t1, slot, s))
  {
    if !Replayable(t, bound, issuer, x) {
      ClearedPlaces(t, slot, x, s);
    }
  }

  lemma {:induction false} GatherPlaces(w: World, t: Tables, bound: Option<Said>, issuer: string, kel: Kel, slot: Slot,
                                        saids: seq<Said>, usable: map<Said, Serder>, s: Said)
    requires Bodies(w, t) && Lists(t)
    ensures var t' := Gather(t, bound, issuer, kel, slot, saids, usable).0;
            && Lists(t')
            && (Replayable(t, bound, issuer, s) ==> SamePlaces(t, t', slot, s))
            && (!Replayable(t, bound, issuer, s) && (s in saids || Dropped(t, slot, s)) ==> Dropped(t', slot, s))
    decreases |saids|
  {
    if saids != [] {
      var (t1, usable1) := GatherNext(t, bound, issuer, kel, slot, saids[0], usable);
      GatherUnfolds(t, bound, issuer, kel, slot, saids, usable);
      GatherNextExact(w, t, bound, issuer, kel, slot, saids[0], usable);
      GatherNextPlaces(w, t, bound, issuer, kel, slot, saids[0], usable, s);
      SameReplayable(t, t1, bound, issuer);
      GatherPlaces(w, t1, bound, issuer, kel, slot, saids[1..], usable1, s);
    }
  }

  // ----- retrying ----------------------------------------------------------------------------

  /** An event of a slot that stays free is put where it belongs, and no other entry is touched. */
  lemma PlacedPlaces(t: Tables, e: Serder, prior: Option<Serder>, slot: Slot, s: Said)
    requires Lists(t) && SlotOf(e) == slot && !Placed(t, e, prior).done
    ensures var t' := Placed(t, e, prior).t;
            && t'.tels == t.tels && Lists(t') && (s != e.said ==> SamePlaces(t, t', slot, s))
            && (InMissing(t', slot, e.said) || InQueue(t', slot, e.said))
  {
    StepLists(t, MissingAnchorAdded(slot, e.said));
    StepLists(t, MissingAnchorRemoved(slot, e.said));
    StepLists(Step(t, MissingAnchorRemoved(slot, e.said)), OutOfOrderAdded(slot, e.said));
    RemMembers(Entries(t.maes, slot), e.said, s);
  }

  lemma StoredPlaces(t: Tables, kel: Kel, e: Serder)
    ensures var t' := Stored(t, kel, e); t'.maes == t.maes && t'.ooes == t.ooes && t'.tels == t.tels
  {
  }

  /** Processing an event of a slot that stays free. */
  lemma ProcessPlaces(w: World, t: Tables, issuer: string, kel: Kel, slot: Slot, e: Serder, pending: set<Said>, s: Said)
    requires Steady(w, t, pending, None) && Sound(w, kel) && w.doc(e.said) == e && SlotOf(e) == slot
    requires Validate(t, Some(slot.regk), issuer, e).Ok?
    requires slot !in Process(t, Some(slot.regk), issuer, kel, e).value.t.tels
    ensures var t' := Process(t, Some(slot.regk), issuer, kel, e).value.t;
            && t'.tels == t.tels && (s != e.said ==> SamePlaces(t, t', slot, s))
            && (InMissing(t', slot, e.said) || InQueue(t', slot, e.said))
  {
    ProcessLands(w, t, Some(slot.regk), issuer, kel, e, pending);
    ProcessKeeps(w, t, Some(slot.regk), issuer, kel, e, pending);
    ValidFree(w, t, Some(slot.regk), issuer, e);
    var prior := Validate(t, Some(slot.regk), issuer, e).value.prior;
    StoredPlaces(t, kel, e);
    PlacedPlaces(Stored(t, kel, e), e, prior, slot, s);
  }

  /** The competitors can all be replayed, and are genuine events of the slot. */
  ghost predicate Contesting(w: World, t: Tables, issuer: string, slot: Slot, usable: map<Said, Serder>) {
    && Usable(w, t, slot, usable)
    && forall s | s in usable :: Validate(t, Some(slot.regk), issuer, usable[s]).Ok?
  }

  lemma StillContesting(w: World, t: Tables, t': Tables, issuer: string, slot: Slot, usable: map<Said, Serder>)
    requires Log(w, t) && Bodies(w, t) && Log(w, t') && Bodies(w, t')
    requires Contesting(w, t, issuer, slot, usable) && t'.tels == t.tels && Grows(t, t')
    ensures Contesting(w, t', issuer, slot, usable)
  {
    UsableGrows(w, t, t', slot, usable);
    forall s | s in usable ensures Validate(t', Some(slot.regk), issuer, usable[s]).Ok? {
      SameVerdict(w, t, t', Some(slot.regk), issuer, usable[s]);
    }
  }

  lemma SameVerdict(w: World, t: Tables, t': Tables, bound: Option<Said>, issuer: string, e: Serder)
    requires Log(w, t) && Bodies(w, t) && Log(w, t') && Bodies(w, t') && t'.tels == t.tels
    ensures Validate(t', bound, issuer, e) == Validate(t, bound, issuer, e)
  {
    LoggedExact(w, t, SlotOf(e));
    LoggedExact(w, t', SlotOf(e));
    if !e.ilk.Rip? && e.sn > 0 {
      LoggedExact(w, t, Slot(RegkOf(e), e.sn - 1));
      LoggedExact(w, t', Slot(RegkOf(e), e.sn - 1));
    }
  }

  lemma {:induction false} RetryPlaces(w: World, t: Tables, issuer: string, kel: Kel, slot: Slot, usable: map<Said, Serder>,
                                       order: seq<Said>, pending: set<Said>, s: Said)
    requires Steady(w, t, pending, None) && Sound(w, kel) && Contesting(w, t, issuer, slot, usable)
    requires (forall x | x in order :: x in usable) && forall x | x in pending :: x in order
    requires slot !in Retry(t, Some(slot.regk), issuer, kel, slot, usable, order).tels
    ensures var t' := Retry(t, Some(slot.regk), issuer, kel, slot, usable, order);
            if s in order || InMissing(t, slot, s) || InQueue(t, slot, s) then InMissing(t', slot, s) || InQueue(t', slot, s)
            else !InMissing(t', slot, s) && !InQueue(t', slot, s)
    decreases |order|
  {
    if order != [] {
      var x := order[0];
      var t1 := Retried(t, Some(slot.regk), issuer, kel, slot, usable[x], x);
      RetryGrowsFrom(w, t, issuer, kel, slot, usable, order, pending);
      ProcessPlaces(w, t, issuer, kel, slot, usable[x], pending, s);
      StillContesting(w, t, t1, issuer, slot, usable);
      RetryPlaces(w, t1, issuer, kel, slot, usable, order[1..], pending - {x}, s);
    }
  }

  /** One step of retrying a slot that stays free in the end: it is free after the step as well. */
  lemma RetryGrowsFrom(w: World, t: Tables, issuer: string, kel: Kel, slot: Slot, usable: map<Said, Serder>,
                       order: seq<Said>, pending: set<Said>)
    requires Steady(w, t, pending, None) && Sound(w, kel) && Contesting(w, t, issuer, slot, usable)
    requires order != [] && (forall x | x in order :: x in usable) && forall x | x in pending :: x in order
    requires slot !in Retry(t, Some(slot.regk), issuer, kel, slot, usable, order).tels
    ensures var t1 := Retried(t, Some(slot.regk), issuer, kel, slot, usable[order[0]], order[0]);
            && Process(t, Some(slot.regk), issuer, kel, usable[order[0]]).Ok? && slot !in t1.tels
            && Steady(w, t1, pending - {order[0]}, None) && Grows(t, t1)
  {
    var x := order[0];
    var t1 := Retried(t, Some(slot.regk), issuer, kel, slot, usable[x], x);
    assert x in order;
    ProcessKeeps(w, t, Some(slot.regk), issuer, kel, usable[x], pending);
    UsableGrows(w, t, t1, slot, usable);
    RetryKeeps(w, t1, Some(slot.regk), issuer, kel, slot, usable, order[1..], pending - {x});
  }

  /** Retrying finds no seal where gathering found none. */
  lemma {:induction false} RetrySealless(t: Tables, bound: Option<Said>, issuer: string, kel: Kel, slot: Slot,
                                         usable: map<Said, Serder>, order: seq<Said>, s: Said)
    requires (forall x | x in order :: x in usable && usable[x].said == x) && s !in t.ancs
    requires s in usable ==> Discovered(kel, usable[s]).None?
    ensures s !in Retry(t, bound, issuer, kel, slot, usable, order).ancs
    decreases |order|
  {
    if order != [] {
      var x := order[0];
      RetriedAdds(t, bound, issuer, kel, slot, usable[x]);
      if x == s {
        SealessRetried(t, bound, issuer, kel, slot, usable[x], x);
      }
      RetrySealless(Retried(t, bound, issuer, kel, slot, usable[x], x), bound, issuer, kel, slot, usable, order[1..], s);
    }
  }

  lemma CompetitorSealed(w: World, t: Tables, issuer: string, kel: Kel, slot: Slot, usable: map<Said, Serder>, s: Said)
    requires Competing(w, t, issuer, kel, slot, usable) && s in usable
    ensures s in Retry(t, Some(slot.regk), issuer, kel, slot, usable, ByWinner(t.ancs, usable.Keys)).ancs <==> s in Seen(t, kel)
  {
    var order := ByWinner(t.ancs, usable.Keys);
    if s in t.ancs {
      RetryAdds(t, Some(slot.regk), issuer, kel, slot, usable, order, usable.Keys);
    } else {
      RetrySealless(t, Some(slot.regk), issuer, kel, slot, usable, order, s);
    }
  }

  // ----- the slot as a whole -----------------------------------------------------------------

  /** Of two escrows, an event that is in one is in the queue exactly when it has a seal. */
  lemma PlacedBySeal(w: World, t: Tables, slot: Slot, s: Said)
    requires Steady(w, t, {}, None) && (InMissing(t, slot, s) || InQueue(t, slot, s))
    ensures (InQueue(t, slot, s) <==> s in t.ancs) && (InMissing(t, slot, s) <==> s !in t.ancs)
  {
  }

  lemma RetryKeepsPlaces(w: World, t: Tables, issuer: string, kel: Kel, slot: Slot, saids: seq<Said>, s: Said)
    requires Steady(w, t, {}, None) && Sound(w, kel) && (forall x | x in saids :: SlotOf(w.doc(x)) == slot) && s in saids
    requires slot !in RetrySlot(t, slot.regk, issuer, kel, slot, saids).tels
    ensures var t' := RetrySlot(t, slot.regk, issuer, kel, slot, saids);
            InMissing(t', slot, s) || InQueue(t', slot, s) <==> Replayable(t, Some(slot.regk), issuer, s)
  {
    var (t1, usable) := Gather(t, Some(slot.regk), issuer, kel, slot, saids, map[]);
    GatherPlaces(w, t, Some(slot.regk), issuer, kel, slot, saids, map[], s);
    GatherExact(w, t, Some(slot.regk), issuer, kel, slot, saids, map[]);
    GatherSteady(w, t, Some(slot.regk), issuer, kel, slot, saids, t1, usable);
    GatherGathers(w, t, Some(slot.regk), issuer, kel, slot, saids, map[]);
    assert Contesting(w, t1, issuer, slot, usable);
    RetryPlaces(w, t1, issuer, kel, slot, usable, ByWinner(t1.ancs, usable.Keys), usable.Keys, s);
  }

  /** When a slot's entries are retried and the slot stays free, an entry that can still be replayed is afterwards in the
      queue if a seal is known or found for it, and in the missing-anchor escrow if not; all others are in neither. */
  lemma RetrySlotPlaces(w: World, t: Tables, issuer: string, kel: Kel, slot: Slot, saids: seq<Said>, s: Said)
    requires Steady(w, t, {}, None) && Sound(w, kel) && (forall x | x in saids :: SlotOf(w.doc(x)) == slot) && s in saids
    requires slot !in RetrySlot(t, slot.regk, issuer, kel, slot, saids).tels
    ensures var t' := RetrySlot(t, slot.regk, issuer, kel, slot, saids);
            && (InQueue(t', slot, s) <==> Replayable(t, Some(slot.regk), issuer, s) && s in Seen(t, kel))
            && (InMissing(t', slot, s) <==> Replayable(t, Some(slot.regk), issuer, s) && s !in Seen(t, kel))
  {
    var t' := RetrySlot(t, slot.regk, issuer, kel, slot, saids);
    var (t1, usable) := Gather(t, Some(slot.regk), issuer, kel, slot, saids, map[]);
    RetryKeepsPlaces(w, t, issuer, kel, slot, saids, s);
    if Replayable(t, Some(slot.regk), issuer, s) {
      GatherExact(w, t, Some(slot.regk), issuer, kel, slot, saids, map[]);
      GatherCompetes(w, t, issuer, kel, slot, saids);
      CompetitorSealed(w, t1, issuer, kel, slot, usable, s);
      RetrySlotKeeps(w, t, slot.regk, issuer, kel, slot, saids);
      PlacedBySeal(w, t', slot, s);
    }
  }
}
