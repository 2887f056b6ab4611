/** Registries that share a store do not get in one another's way: what an engine does for one registry leaves
    the log, the escrows, the events and the anchors of every other registry alone. */
module RegistryApart {
  import opened Outcomes
  import opened RegistryTables
  import opened RegistryStore
  import opened RegistryRules
  import opened RegistryProtocol

  ghost predicate SameSlot(t: Tables, t': Tables, slot: Slot) {
    && (slot in t'.tels <==> slot in t.tels) && (slot in t.tels ==> t'.tels[slot] == t.tels[slot])
    && Entries(t'.maes, slot) == Entries(t.maes, slot) && Entries(t'.ooes, slot) == Entries(t.ooes, slot)
  }

  ghost predicate SameEvent(t: Tables, t': Tables, s: Said) {
    (s in t'.evts <==> s in t.evts) && (s in t'.ancs <==> s in t.ancs)
  }

  /** Nothing of registry k is touched. */
  ghost predicate Apart(w: World, t: Tables, t': Tables, k: Said) {
    && (forall slot: Slot | slot.regk == k :: SameSlot(t, t', slot))
    && (forall s: Said | RegkOf(w.doc(s)) == k :: SameEvent(t, t', s))
  }

  lemma ApartTrans(w: World, t: Tables, t': Tables, t'': Tables, k: Said)
    requires Apart(w, t, t', k) && Apart(w, t', t'', k)
    ensures Apart(w, t, t'', k)
  {
    forall slot: Slot | slot.regk == k ensures SameSlot(t, t'', slot) {
      assert SameSlot(t, t', slot) && SameSlot(t', t'', slot);
    }
    forall s: Said | RegkOf(w.doc(s)) == k ensures SameEvent(t, t'', s) {
      assert SameEvent(t, t', s) && SameEvent(t', t'', s);
    }
  }

  // ----- single moves ------------------------------------------------------------------------

  lemma ClearedApart(w: World, t: Tables, slot: Slot, s: Said, k: Said)
    requires slot.regk != k
    ensures Apart(w, t, Cleared(t, slot, s), k)
  {
  }

  lemma CommitApart(w: World, t: Tables, e: Serder, k: Said)
    requires Bodies(w, t) && RegkOf(e) != k && w.doc(e.said) == e
    ensures Bodies(w, Commit(t, e)) && Apart(w, t, Commit(t, e), k)
  {
  }

  lemma DiscoverApart(w: World, t: Tables, kel: Kel, e: Serder, k: Said)
    requires Bodies(w, t) && RegkOf(e) != k && w.doc(e.said) == e
    ensures Bodies(w, Discover(t, kel, e)) && Apart(w, t, Discover(t, kel, e), k)
  {
  }

  lemma StoredApart(w: World, t: Tables, kel: Kel, e: Serder, k: Said)
    requires Bodies(w, t) && RegkOf(e) != k && w.doc(e.said) == e
    ensures Bodies(w, Stored(t, kel, e)) && Apart(w, t, Stored(t, kel, e), k)
  {
    var t' := Step(t, EventPut(e));
    assert Apart(w, t, t', k);
    DiscoverApart(w, t', kel, e, k);
    ApartTrans(w, t, t', Stored(t, kel, e), k);
  }

  lemma PlacedApart(w: World, t: Tables, e: Serder, prior: Option<Serder>, k: Said)
    requires Bodies(w, t) && RegkOf(e) != k && w.doc(e.said) == e
    ensures Bodies(w, Placed(t, e, prior).t) && Apart(w, t, Placed(t, e, prior).t, k)
  {
    if e.said in t.ancs {
      var t' := Step(t, MissingAnchorRemoved(SlotOf(e), e.said));
      assert Apart(w, t, t', k);
      if e.ilk.Rip? || prior.Some? {
        CommitApart(w, t', e, k);
        ApartTrans(w, t, t', Commit(t', e), k);
      } else {
        assert Apart(w, t', Step(t', OutOfOrderAdded(SlotOf(e), e.said)), k);
        ApartTrans(w, t, t', Step(t', OutOfOrderAdded(SlotOf(e), e.said)), k);
      }
    }
  }

  /** What validates for a registry belongs to it. */
  lemma ReplayBelongs(w: World, t: Tables, regk: Said, issuer: string, s: Said)
    requires Bodies(w, t) && Replayable(t, Some(regk), issuer, s)
    ensures t.evts[s] == w.doc(s) && w.doc(s).said == s && RegkOf(w.doc(s)) == regk
  {
  }

  // ----- the queue ---------------------------------------------------------------------------

  lemma {:induction false} AdvanceApart(w: World, t: Tables, issuer: string, slot: Slot, order: seq<Said>, k: Said)
    requires Bodies(w, t) && slot.regk != k
    ensures var t' := Advance(t, Some(slot.regk), issuer, slot, order).0;
            Bodies(w, t') && Apart(w, t, t', k)
    decreases |order|
  {
    if order != [] {
      var s := order[0];
      if !Replayable(t, Some(slot.regk), issuer, s) {
        var t1 := Cleared(t, slot, s);
        ClearedApart(w, t, slot, s, k);
        AdvanceApart(w, t1, issuer, slot, order[1..], k);
        ApartTrans(w, t, t1, Advance(t, Some(slot.regk), issuer, slot, order).0, k);
      } else if !Ripe(t, Some(slot.regk), issuer, s) {
        AdvanceApart(w, t, issuer, slot, order[1..], k);
      } else {
        ReplayBelongs(w, t, slot.regk, issuer, s);
        CommitApart(w, t, t.evts[s], k);
      }
    }
  }

  lemma {:induction false} DrainApart(w: World, t: Tables, regk: Said, issuer: string, k: Said)
    requires Bodies(w, t) && regk != k
    ensures Bodies(w, Drain(t, regk, issuer)) && Apart(w, t, Drain(t, regk, issuer), k)
    decreases |QueueSlots(t)|
  {
    if Entries(t.ooes, NextOf(t, regk)) != [] {
      var (t', winner) := Contest(t, regk, issuer);
      AdvanceApart(w, t, issuer, NextOf(t, regk), ByWinner(t.ancs, set s | s in Entries(t.ooes, NextOf(t, regk))), k);
      if winner.Some? && |QueueSlots(t')| < |QueueSlots(t)| {
        DrainApart(w, t', regk, issuer, k);
        ApartTrans(w, t, t', Drain(t', regk, issuer), k);
      }
    }
  }

  // ----- one event ---------------------------------------------------------------------------

  lemma ProcessApart(w: World, t: Tables, bound: Option<Said>, issuer: string, kel: Kel, e: Serder, o: Outcome, k: Said)
    requires Bodies(w, t) && RegkOf(e) != k && w.doc(e.said) == e && Process(t, bound, issuer, kel, e) == Ok(o)
    ensures Bodies(w, o.t) && Apart(w, t, o.t, k)
  {
    var c := Validate(t, bound, issuer, e).value;
    if c.existing.None? {
      var t1 := Stored(t, kel, e);
      var p := Placed(t1, e, c.prior);
      StoredApart(w, t, kel, e, k);
      PlacedApart(w, t1, e, c.prior, k);
      ApartTrans(w, t, t1, p.t, k);
      if p.done {
        DrainApart(w, p.t, RegkOf(e), issuer, k);
        ApartTrans(w, t, p.t, o.t, k);
      }
    }
  }

  lemma AnchoredApart(w: World, t: Tables, kel: Kel, e: Serder, couple: Option<Seal>, k: Said)
    requires Bodies(w, t) && RegkOf(e) != k && w.doc(e.said) == e
    ensures Bodies(w, Anchored(t, kel, e, couple)) && Apart(w, t, Anchored(t, kel, e, couple), k)
  {
    if couple.None? {
      DiscoverApart(w, t, kel, e, k);
    }
  }

  // ----- the missing-anchor escrow -----------------------------------------------------------

  /** The usable events are genuine and belong to the registry. */
  ghost predicate Belong(w: World, usable: map<Said, Serder>, regk: Said) {
    forall s | s in usable :: RegkOf(usable[s]) == regk && w.doc(usable[s].said) == usable[s]
  }

  lemma {:induction false} GatherApart(w: World, t: Tables, issuer: string, kel: Kel, slot: Slot, saids: seq<Said>,
                                       usable: map<Said, Serder>, k: Said)
    requires Bodies(w, t) && slot.regk != k && Belong(w, usable, slot.regk)
    ensures var (t', usable') := Gather(t, Some(slot.regk), issuer, kel, slot, saids, usable);
            Bodies(w, t') && Apart(w, t, t', k) && Belong(w, usable', slot.regk)
    decreases |saids|
  {
    if saids != [] {
      var s := saids[0];
      if !Replayable(t, Some(slot.regk), issuer, s) {
        var t1 := Cleared(t, slot, s);
        ClearedApart(w, t, slot, s, k);
        GatherApart(w, t1, issuer, kel, slot, saids[1..], usable, k);
        ApartTrans(w, t, t1, Gather(t, Some(slot.regk), issuer, kel, slot, saids, usable).0, k);
      } else {
        ReplayBelongs(w, t, slot.regk, issuer, s);
        var e := t.evts[s];
        var t1 := Discover(t, kel, e);
        DiscoverApart(w, t, kel, e, k);
        GatherApart(w, t1, issuer, kel, slot, saids[1..], usable[s := e], k);
        ApartTrans(w, t, t1, Gather(t, Some(slot.regk), issuer, kel, slot, saids, usable).0, k);
      }
    }
  }

  lemma RetriedApart(w: World, t: Tables, issuer: string, kel: Kel, slot: Slot, e: Serder, said: Said, k: Said)
    requires Bodies(w, t) && slot.regk != k && RegkOf(e) == slot.regk && w.doc(e.said) == e
    ensures var t' := Retried(t, Some(slot.regk), issuer, kel, slot, e, said);
            Bodies(w, t') && Apart(w, t, t', k)
  {
    match Process(t, Some(slot.regk), issuer, kel, e)
    case Ok(o) => ProcessApart(w, t, Some(slot.regk), issuer, kel, e, o, k);
    case Err(_) => ClearedApart(w, t, slot, said, k);
  }

  lemma {:induction false} RetryApart(w: World, t: Tables, issuer: string, kel: Kel, slot: Slot,
                                      usable: map<Said, Serder>, order: seq<Said>, k: Said)
    requires Bodies(w, t) && slot.regk != k && Belong(w, usable, slot.regk) && forall s | s in order :: s in usable
    ensures var t' := Retry(t, Some(slot.regk), issuer, kel, slot, usable, order);
            Bodies(w, t') && Apart(w, t, t', k)
    decreases |order|
  {
    if order != [] {
      var t1 := Retried(t, Some(slot.regk), issuer, kel, slot, usable[order[0]], order[0]);
      RetriedApart(w, t, issuer, kel, slot, usable[order[0]], order[0], k);
      RetryApart(w, t1, issuer, kel, slot, usable, order[1..], k);
      ApartTrans(w, t, t1, Retry(t, Some(slot.regk), issuer, kel, slot, usable, order), k);
    }
  }

  lemma RetrySlotApart(w: World, t: Tables, issuer: string, kel: Kel, slot: Slot, saids: seq<Said>, k: Said)
    requires Bodies(w, t) && slot.regk != k
    ensures var t' := RetrySlot(t, slot.regk, issuer, kel, slot, saids);
            Bodies(w, t') && Apart(w, t, t', k)
  {
    var (t1, usable) := Gather(t, Some(slot.regk), issuer, kel, slot, saids, map[]);
    GatherApart(w, t, issuer, kel, slot, saids, map[], k);
    RetryApart(w, t1, issuer, kel, slot, usable, ByWinner(t1.ancs, usable.Keys), k);
    ApartTrans(w, t, t1, RetrySlot(t, slot.regk, issuer, kel, slot, saids), k);
  }

  lemma {:induction false} RetryAllApart(w: World, t: Tables, regk: Said, issuer: string, kel: Kel,
                                         maes: map<Slot, seq<Said>>, sns: seq<nat>, k: Said)
    requires Bodies(w, t) && regk != k
    ensures var t' := RetryAll(t, regk, issuer, kel, maes, sns);
            Bodies(w, t') && Apart(w, t, t', k)
    decreases |sns|
  {
    if sns != [] {
      var slot := Slot(regk, sns[0]);
      var t1 := RetrySlot(t, regk, issuer, kel, slot, Entries(maes, slot));
      RetrySlotApart(w, t, issuer, kel, slot, Entries(maes, slot), k);
      RetryAllApart(w, t1, regk, issuer, kel, maes, sns[1..], k);
      ApartTrans(w, t, t1, RetryAll(t, regk, issuer, kel, maes, sns), k);
    }
  }

  lemma EscrowsApart(w: World, t: Tables, bound: Option<Said>, issuer: string, kel: Kel, k: Said)
    requires Bodies(w, t) && bound != Some(k)
    ensures Apart(w, t, ProcessEscrows(t, bound, issuer, kel), k)
  {
    if bound.Some? {
      var sns := EscrowedSns(t.maes, bound.value);
      var t1 := RetryAll(t, bound.value, issuer, kel, t.maes, sns);
      RetryAllApart(w, t, bound.value, issuer, kel, t.maes, sns, k);
      DrainApart(w, t1, bound.value, issuer, k);
      ApartTrans(w, t, t1, Drain(t1, bound.value, issuer), k);
    }
  }
}
