/** What the engine does to anchors while it works on its escrows: it only adds some, and only those of the events it is
    looking at. */
module RegistryAnchors {
  import opened Outcomes
  import opened RegistryTables
  import opened RegistryStore
  import opened RegistryRules
  import opened KeyOrder
  import opened RegistryProtocol
  import opened RegistryInvariants

  /** Every anchor stays as it is, and new ones belong to the events named. */
  ghost predicate AnchorsAdded(t: Tables, t': Tables, saids: set<Said>) {
    && (forall s | s in t.ancs :: s in t'.ancs && t'.ancs[s] == t.ancs[s])
    && (forall s | s in t'.ancs :: s in t.ancs || s in saids)
  }

  lemma AddedTrans(t: Tables, t': Tables, t'': Tables, some: set<Said>, all: set<Said>)
    requires AnchorsAdded(t, t', some) && AnchorsAdded(t', t'', all) && some <= all
    ensures AnchorsAdded(t, t'', all)
  {
  }

  lemma {:induction false} AdvanceAnchors(t: Tables, bound: Option<Said>, issuer: string, slot: Slot, order: seq<Said>)
    ensures Advance(t, bound, issuer, slot, order).0.ancs == t.ancs
    decreases |order|
  {
    if order != [] {
      AdvanceAnchors(Cleared(t, slot, order[0]), bound, issuer, slot, order[1..]);
      AdvanceAnchors(t, bound, issuer, slot, order[1..]);
    }
  }

  lemma {:induction false} DrainAnchors(t: Tables, regk: Said, issuer: string)
    ensures Drain(t, regk, issuer).ancs == t.ancs
    decreases |QueueSlots(t)|
  {
    var slot := NextOf(t, regk);
    var (t', winner) := Contest(t, regk, issuer);
    AdvanceAnchors(t, Some(regk), issuer, slot, ByWinner(t.ancs, set s | s in Entries(t.ooes, slot)));
    if Entries(t.ooes, slot) != [] && winner.Some? && |QueueSlots(t')| < |QueueSlots(t)| {
      DrainAnchors(t', regk, issuer);
    }
  }

  /** Draining stores no new body either. */
  lemma {:induction false} AdvanceBodies(t: Tables, bound: Option<Said>, issuer: string, slot: Slot, order: seq<Said>)
    requires forall s | s in t.evts :: t.evts[s].said == s
    ensures Advance(t, bound, issuer, slot, order).0.evts == t.evts
    decreases |order|
  {
    if order != [] {
      AdvanceBodies(Cleared(t, slot, order[0]), bound, issuer, slot, order[1..]);
      AdvanceBodies(t, bound, issuer, slot, order[1..]);
    }
  }

  lemma {:induction false} DrainBodies(t: Tables, regk: Said, issuer: string)
    requires forall s | s in t.evts :: t.evts[s].said == s
    ensures Drain(t, regk, issuer).evts == t.evts
    decreases |QueueSlots(t)|
  {
    var slot := NextOf(t, regk);
    var (t', winner) := Contest(t, regk, issuer);
    AdvanceBodies(t, Some(regk), issuer, slot, ByWinner(t.ancs, set s | s in Entries(t.ooes, slot)));
    if Entries(t.ooes, slot) != [] && winner.Some? && |QueueSlots(t')| < |QueueSlots(t)| {
      DrainBodies(t', regk, issuer);
    }
  }

  lemma PlacedAnchors(t: Tables, e: Serder, prior: Option<Serder>)
    ensures Placed(t, e, prior).t.ancs == t.ancs
  {
  }

  lemma ProcessAdds(t: Tables, bound: Option<Said>, issuer: string, kel: Kel, e: Serder, o: Outcome)
    requires Process(t, bound, issuer, kel, e) == Ok(o)
    ensures AnchorsAdded(t, o.t, {e.said}) && (e.said in t.ancs ==> o.t.ancs == t.ancs)
  {
    var c := Validate(t, bound, issuer, e).value;
    if c.existing.None? {
      var p := Placed(Stored(t, kel, e), e, c.prior);
      PlacedAnchors(Stored(t, kel, e), e, c.prior);
      DrainAnchors(p.t, RegkOf(e), issuer);
    }
  }

  lemma {:induction false} GatherAdds(w: World, t: Tables, bound: Option<Said>, issuer: string, kel: Kel, slot: Slot,
                                         saids: seq<Said>, usable: map<Said, Serder>, all: set<Said>)
    requires Bodies(w, t) && usable.Keys <= all && forall s | s in saids :: s in all
    ensures var (t', usable') := Gather(t, bound, issuer, kel, slot, saids, usable);
            AnchorsAdded(t, t', all) && usable'.Keys <= all
            && t'.tels == t.tels && t'.evts == t.evts && t'.heads == t.heads
    decreases |saids|
  {
    if saids != [] {
      var (t1, usable1) := GatherNext(t, bound, issuer, kel, slot, saids[0], usable);
      GatherUnfolds(t, bound, issuer, kel, slot, saids, usable);
      GatherNextAdds(w, t, bound, issuer, kel, slot, saids[0], usable);
      GatherAdds(w, t1, bound, issuer, kel, slot, saids[1..], usable1, all);
      AddedTrans(t, t1, Gather(t1, bound, issuer, kel, slot, saids[1..], usable1).0, {saids[0]}, all);
    }
  }

  lemma GatherNextAdds(w: World, t: Tables, bound: Option<Said>, issuer: string, kel: Kel, slot: Slot, s: Said,
                          usable: map<Said, Serder>)
    requires Bodies(w, t)
    ensures var (t1, usable1) := GatherNext(t, bound, issuer, kel, slot, s, usable);
            && AnchorsAdded(t, t1, {s}) && usable1.Keys <= usable.Keys + {s}
            && t1.tels == t.tels && t1.evts == t.evts && t1.heads == t.heads
  {
    if Replayable(t, bound, issuer, s) {
      StoredIsGenuine(w, t, s);
    }
  }

  lemma RetriedAdds(t: Tables, bound: Option<Said>, issuer: string, kel: Kel, slot: Slot, e: Serder)
    ensures AnchorsAdded(t, Retried(t, bound, issuer, kel, slot, e, e.said), {e.said})
  {
    match Process(t, bound, issuer, kel, e)
    case Ok(o) => ProcessAdds(t, bound, issuer, kel, e, o);
    case Err(_) =>
  }

  lemma {:induction false} RetryAdds(t: Tables, bound: Option<Said>, issuer: string, kel: Kel, slot: Slot,
                                        usable: map<Said, Serder>, order: seq<Said>, all: set<Said>)
    requires usable.Keys <= all && forall s | s in order :: s in usable && usable[s].said == s
    ensures AnchorsAdded(t, Retry(t, bound, issuer, kel, slot, usable, order), all)
    decreases |order|
  {
    if order != [] {
      var t1 := Retried(t, bound, issuer, kel, slot, usable[order[0]], order[0]);
      RetriedAdds(t, bound, issuer, kel, slot, usable[order[0]]);
      RetryAdds(t1, bound, issuer, kel, slot, usable, order[1..], all);
      AddedTrans(t, t1, Retry(t1, bound, issuer, kel, slot, usable, order[1..]), {order[0]}, all);
    }
  }

  /** Retrying a slot adds anchors only to the events that wait there. */
  lemma RetrySlotAdds(w: World, t: Tables, regk: Said, issuer: string, kel: Kel, slot: Slot, saids: seq<Said>)
    requires Steady(w, t, {}, None) && Sound(w, kel) && forall s | s in saids :: SlotOf(w.doc(s)) == slot
    ensures AnchorsAdded(t, RetrySlot(t, regk, issuer, kel, slot, saids), set s | s in saids)
  {
    var all := set s | s in saids;
    var (t1, usable) := Gather(t, Some(regk), issuer, kel, slot, saids, map[]);
    GatherAdds(w, t, Some(regk), issuer, kel, slot, saids, map[], all);
    GatherSteady(w, t, Some(regk), issuer, kel, slot, saids, t1, usable);
    RetryAdds(t1, Some(regk), issuer, kel, slot, usable, ByWinner(t1.ancs, usable.Keys), all);
    AddedTrans(t, t1, RetrySlot(t, regk, issuer, kel, slot, saids), all, all);
  }

  // ----- events whose turn has not come ------------------------------------------------------

  /** The escrowed events of the slots still to be visited have no anchor yet, and so none of them is logged. */
  ghost predicate Unvisited(t: Tables, regk: Said, maes: map<Slot, seq<Said>>, sns: seq<nat>) {
    forall n, s | n in sns && s in Entries(maes, Slot(regk, n)) :: s !in t.ancs
  }

  /** The entries of one slot whose turn it is. */
  ghost predicate Due(w: World, t: Tables, slot: Slot, saids: seq<Said>) {
    forall s | s in saids :: SlotOf(w.doc(s)) == slot && s !in t.ancs
  }

  lemma NoneVisited(t: Tables, regk: Said, sns: seq<nat>)
    requires Waiting(t, {})
    ensures Unvisited(t, regk, t.maes, sns)
  {
  }

  lemma UnanchoredIsUnlogged(w: World, t: Tables, slot: Slot, s: Said)
    requires Log(w, t) && s !in t.ancs
    ensures slot in t.tels ==> t.tels[slot] != s
  {
    assert slot in t.tels ==> Entry(w, t, slot);
  }

  /** The next slot's turn: its entries have no anchor, and retrying them leaves those of later slots without one. */
  lemma NextTurn(w: World, t: Tables, regk: Said, issuer: string, kel: Kel, maes: map<Slot, seq<Said>>, sns: seq<nat>, i: nat)
    requires Steady(w, t, {}, None) && Sound(w, kel) && Home(w, maes)
    requires i < |sns| && SortedBy(Fewer(), sns) && Unvisited(t, regk, maes, sns[i..])
    ensures var slot := Slot(regk, sns[i]);
            && Due(w, t, slot, Entries(maes, slot))
            && Unvisited(RetrySlot(t, regk, issuer, kel, slot, Entries(maes, slot)), regk, maes, sns[i + 1..])
  {
    var slot := Slot(regk, sns[i]);
    assert sns[i] == sns[i..][0];
    assert forall s | s in Entries(maes, slot) :: SlotOf(w.doc(s)) == slot;
    RetrySlotAdds(w, t, regk, issuer, kel, slot, Entries(maes, slot));
    forall n, s | n in sns[i + 1..] && s in Entries(maes, Slot(regk, n)) ensures n in sns[i..] && s !in Entries(maes, slot) {
      var j :| i < j < |sns| && sns[j] == n;
      assert sns[i..][j - i] == n;
      assert Fewer()(sns[i], sns[j]);
    }
  }
}
