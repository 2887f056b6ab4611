/** The digest an engine keeps beside its tables, and when it is the accepted head. */
module RegistryDigest {
  import opened Outcomes
  import opened RegistryTables
  import opened RegistryRules
  import opened RegistryProtocol
  import opened RegistryInvariants

  function HeadOf(t: Tables, regk: Said): Option<Said> {
    if regk in t.heads then Some(t.heads[regk]) else None
  }

  /** The digest an engine keeps is the accepted head of its registry. */
  predicate AtHead(t: Tables, regk: Option<Said>, regd: Option<Said>) {
    regk.Some? && regk.value in t.heads && regd == Some(t.heads[regk.value])
  }

  /** What an accepted or escrowed event makes of the digest: itself, if it was logged already or is the inception an
      unbound engine puts aside; the new head, if it is committed; and otherwise nothing new. */
  function NextRegd(t: Tables, bound: Option<Said>, regd: Option<Said>, e: Serder, o: Outcome): Option<Said> {
    if o.done then (if InLog(t, e) then Some(e.said) else HeadOf(o.t, RegkOf(e)))
    else if bound.None? then Some(e.said)
    else regd
  }

  lemma LoggedHasHead(w: World, t: Tables, e: Serder)
    requires Heads(w, t) && InLog(t, e)
    ensures HeadOf(t, RegkOf(e)).Some?
  {
    assert SlotOf(e) in t.tels;
  }

  lemma NoInceptionNoHead(w: World, t: Tables, regk: Said)
    requires Log(w, t) && Heads(w, t) && Slot(regk, 0) !in t.tels
    ensures regk !in t.heads
  {
    if regk in t.heads {
      assert HeadTop(w, t, regk);
      BelowLogged(w, t, regk, w.doc(t.heads[regk]).sn, 0);
    }
  }

  lemma StoredHeads(t: Tables, kel: Kel, e: Serder)
    ensures Stored(t, kel, e).heads == t.heads
  {
  }

  lemma PlacedHeads(t: Tables, e: Serder, prior: Option<Serder>)
    ensures !Placed(t, e, prior).done ==> Placed(t, e, prior).t.heads == t.heads
  {
  }

  lemma EscrowedKeepsHeads(t: Tables, bound: Option<Said>, issuer: string, kel: Kel, e: Serder, o: Outcome)
    requires Process(t, bound, issuer, kel, e) == Ok(o) && !o.done
    ensures o.t.heads == t.heads && (bound.Some? ==> RegkOf(e) == bound.value) && (bound.None? ==> e.ilk.Rip? && e.sn == 0)
  {
    var c := Validate(t, bound, issuer, e).value;
    StoredHeads(t, kel, e);
    PlacedHeads(Stored(t, kel, e), e, c.prior);
  }

  /** What makes the digest the accepted head, before the call: of an event that is logged already, that it is the head;
      of a new one, that it has a seal and nothing missing below it, or else that the digest is the head and stays. */
  predicate RegdHolds(t: Tables, bound: Option<Said>, regd: Option<Said>, e: Serder, sealed: bool) {
    if InLog(t, e) then HeadOf(t, RegkOf(e)) == Some(e.said)
    else (sealed && (e.ilk.Rip? || (e.sn > 0 && Slot(RegkOf(e), e.sn - 1) in t.tels))) || AtHead(t, bound, regd)
  }

  /** The event has a seal, known or to be found. */
  predicate HasSeal(t: Tables, kel: Kel, e: Serder) {
    e.said in t.ancs || Discovered(kel, e).Some?
  }

  lemma SameLogSameRegd(t: Tables, t': Tables, bound: Option<Said>, regd: Option<Said>, e: Serder, o: Outcome)
    requires t'.tels == t.tels
    ensures NextRegd(t', bound, regd, e, o) == NextRegd(t, bound, regd, e, o)
    ensures t'.heads == t.heads ==>
              forall sealed :: RegdHolds(t', bound, regd, e, sealed) <==> RegdHolds(t, bound, regd, e, sealed)
  {
  }

  /** Processing an event that is logged already changes nothing. */
  lemma LoggedIsDone(w: World, t: Tables, bound: Option<Said>, issuer: string, kel: Kel, e: Serder, o: Outcome)
    requires Bodies(w, t) && Log(w, t) && Process(t, bound, issuer, kel, e) == Ok(o) && InLog(t, e)
    ensures o == Outcome(t, true)
  {
    ValidFree(w, t, bound, issuer, e);
  }

  /** After an event that is not refused the digest is the accepted head exactly in those cases. It is not, when a logged
      event below the head is repeated, nor when an unbound engine puts its inception aside. */
  lemma RegdExact(w: World, t: Tables, bound: Option<Said>, regd: Option<Said>, issuer: string, kel: Kel, e: Serder,
                  o: Outcome, pending: set<Said>)
    requires Steady(w, t, pending, None) && Sound(w, kel) && w.doc(e.said) == e
    requires Process(t, bound, issuer, kel, e) == Ok(o)
    ensures AtHead(o.t, Some(RegkOf(e)), NextRegd(t, bound, regd, e, o)) <==>
            RegdHolds(t, bound, regd, e, HasSeal(t, kel, e))
  {
    if InLog(t, e) {
      LoggedIsDone(w, t, bound, issuer, kel, e, o);
    } else {
      ProcessKeeps(w, t, bound, issuer, kel, e, pending);
      ProcessLands(w, t, bound, issuer, kel, e, pending);
      KindOf(w, t, bound, issuer, e);
      if !o.done {
        EscrowedKeepsHeads(t, bound, issuer, kel, e, o);
      }
      LandedRegd(w, t, bound, regd, e, o, HasSeal(t, kel, e));
    }
  }

  lemma LandedRegd(w: World, t: Tables, bound: Option<Said>, regd: Option<Said>, e: Serder, o: Outcome, sealed: bool)
    requires Log(w, o.t) && Heads(w, o.t) && !InLog(t, e) && (if o.done then InLog(o.t, e) else SlotOf(e) !in o.t.tels)
    requires e.ilk.Rip? || (e.ilk.Bup? && e.sn >= 1)
    requires o.done <==> sealed && (e.ilk.Rip? || Slot(RegkOf(e), e.sn - 1) in t.tels)
    requires !o.done ==>
               o.t.heads == t.heads && (bound.Some? ==> RegkOf(e) == bound.value) && (bound.None? ==> e.sn == 0)
    ensures AtHead(o.t, Some(RegkOf(e)), NextRegd(t, bound, regd, e, o)) <==> RegdHolds(t, bound, regd, e, sealed)
  {
    if o.done {
      LoggedHasHead(w, o.t, e);
    } else {
      EscrowedRegd(w, t, bound, regd, e, o);
    }
  }

  lemma KindOf(w: World, t: Tables, bound: Option<Said>, issuer: string, e: Serder)
    requires Bodies(w, t) && Log(w, t) && Validate(t, bound, issuer, e).Ok?
    ensures e.ilk.Rip? || (e.ilk.Bup? && e.sn >= 1)
  {
    ValidFree(w, t, bound, issuer, e);
  }

  lemma EscrowedRegd(w: World, t: Tables, bound: Option<Said>, regd: Option<Said>, e: Serder, o: Outcome)
    requires Log(w, o.t) && Heads(w, o.t) && !o.done && SlotOf(e) !in o.t.tels && o.t.heads == t.heads
    requires (bound.Some? ==> RegkOf(e) == bound.value) && (bound.None? ==> e.sn == 0)
    ensures AtHead(o.t, Some(RegkOf(e)), NextRegd(t, bound, regd, e, o)) <==> AtHead(t, bound, regd)
  {
    if bound.None? {
      NoInceptionNoHead(w, o.t, RegkOf(e));
    }
  }

  lemma CoupledRegd(w: World, t: Tables, bound: Option<Said>, regd: Option<Said>, issuer: string, kel: Kel, e: Serder,
                    couple: Option<Seal>, o: Outcome)
    requires Steady(w, t, {}, None) && Sound(w, kel) && e.said in t.evts && w.doc(e.said) == e
    requires !AnchorFault(t, kel, e, couple) && Process(Anchored(t, kel, e, couple), bound, issuer, kel, e) == Ok(o)
    ensures AtHead(o.t, Some(RegkOf(e)), NextRegd(t, bound, regd, e, o)) <==> RegdHolds(t, bound, regd, e, true)
  {
    var t1 := Anchored(t, kel, e, couple);
    AnchoredKeeps(w, t, kel, e, couple, {});
    RegdExact(w, t1, bound, regd, issuer, kel, e, o, {} + {e.said});
    AnchoredLog(t, kel, e, couple);
    SameLogSameRegd(t, t1, bound, regd, e, o);
  }

  /** The same for a message that is anchored: it has its seal. */
  lemma AnchorRegdExact(w: World, t: Tables, bound: Option<Said>, regd: Option<Said>, issuer: string, kel: Kel, e: Serder,
                        number: Option<nat>, dig: Option<string>, o: Outcome)
    requires Steady(w, t, {}, None) && Sound(w, kel) && e.said in t.evts && t.evts[e.said] == e
    requires AnchorMsg(t, bound, issuer, kel, e.said, number, dig) == Ok(o)
    ensures AtHead(o.t, Some(RegkOf(e)), NextRegd(t, bound, regd, e, o)) <==> RegdHolds(t, bound, regd, e, true)
  {
    AnchorMsgIs(t, bound, issuer, kel, e.said, number, dig, o);
    StoredIsGenuine(w, t, e.said);
    CoupledRegd(w, t, bound, regd, issuer, kel, e, CoupleOf(number, dig), o);
  }

  // ----- passes over the escrows -------------------------------------------------------------

  /** The digest became the accepted head, or neither of the two moved. */
  predicate Follows(t: Tables, regd: Option<Said>, t': Tables, regk: Option<Said>, regd': Option<Said>) {
    AtHead(t', regk, regd') || (regd' == regd && t'.heads == t.heads)
  }

  /** None of the usable events is in the log. */
  predicate Unlogged(t: Tables, usable: map<Said, Serder>, saids: seq<Said>) {
    forall s | s in saids && s in usable :: !InLog(t, usable[s])
  }

  /** Processing an event that is not logged makes the digest the accepted head, or moves neither. */
  lemma ProcessFollows(w: World, t: Tables, bound: Option<Said>, regd: Option<Said>, issuer: string, kel: Kel, e: Serder, o: Outcome)
    requires Process(t, bound, issuer, kel, e) == Ok(o) && bound == Some(RegkOf(e)) && !InLog(t, e)
    requires Heads(w, o.t) && (o.done ==> InLog(o.t, e))
    ensures Follows(t, regd, o.t, bound, NextRegd(t, bound, regd, e, o))
  {
    if o.done {
      LoggedHasHead(w, o.t, e);
    } else {
      EscrowedKeepsHeads(t, bound, issuer, kel, e, o);
    }
  }

  /** Of the events that compete for a slot, processing one logs no other. */
  lemma OthersUnlogged(w: World, t: Tables, bound: Option<Said>, issuer: string, kel: Kel, slot: Slot,
                       usable: map<Said, Serder>, order: seq<Said>, pending: set<Said>)
    requires Steady(w, t, pending, None) && Sound(w, kel) && Usable(w, t, slot, usable)
    requires order != [] && (forall s | s in order :: s in usable) && order[0] !in order[1..] && Unlogged(t, usable, order)
    ensures Unlogged(Retried(t, bound, issuer, kel, slot, usable[order[0]], order[0]), usable, order[1..])
  {
    var e := usable[order[0]];
    var r := Process(t, bound, issuer, kel, e);
    if r.Ok? {
      ProcessLands(w, t, bound, issuer, kel, e, pending);
      forall s | s in order[1..] ensures !InLog(r.value.t, usable[s]) {
        assert SlotOf(usable[s]) == SlotOf(e) == slot && usable[s].said == s && e.said == order[0];
      }
    }
  }

  /** An unbound engine given an inception whose seal is not visible yet takes as its digest an event that is only
      escrowed. */
  lemma StagedInceptionIsNoHead(issuer: string, kel: Kel, e: Serder, regd: Option<Said>)
    requires e.ilk == Rip && e.sn == 0 && e.issuer == issuer && Discovered(kel, e).None?
    ensures var r := Process(EMPTY, None, issuer, kel, e);
            && r.Ok? && !r.value.done && NextRegd(EMPTY, None, regd, e, r.value) == Some(e.said)
            && !AtHead(r.value.t, Some(RegkOf(e)), Some(e.said))
  {
  }

  /** The tables after an inception and its first update, each with its seal. */
  function TwoLogged(rip: Serder, a: Seal, bup: Serder, b: Seal): Tables {
    Tables(map[rip.said := rip, bup.said := bup], map[rip.said := a, bup.said := b],
           map[Slot(rip.said, 0) := rip.said, Slot(rip.said, 1) := bup.said], map[rip.said := bup.said],
           map[Slot(rip.said, 0) := [], Slot(rip.said, 1) := []], map[])
  }

  function OneLogged(rip: Serder, a: Seal): Tables {
    Tables(map[rip.said := rip], map[rip.said := a], map[Slot(rip.said, 0) := rip.said], map[rip.said := rip.said],
           map[Slot(rip.said, 0) := []], map[])
  }

  lemma InceptionIsLogged(issuer: string, kel: Kel, rip: Serder, a: Seal)
    requires rip.ilk == Rip && rip.sn == 0 && rip.issuer == issuer && Discovered(kel, rip) == Some(a)
    ensures Process(EMPTY, None, issuer, kel, rip) == Ok(Outcome(OneLogged(rip, a), true))
  {
    var t := Stored(EMPTY, kel, rip);
    assert t == EMPTY.(evts := map[rip.said := rip], ancs := map[rip.said := a]);
    assert RemAt(t.maes, SlotOf(rip), rip.said) == map[SlotOf(rip) := []];
    assert Placed(t, rip, None) == Outcome(OneLogged(rip, a), true);
    assert Drain(OneLogged(rip, a), rip.said, issuer) == OneLogged(rip, a);
  }

  lemma UpdateIsStored(issuer: string, kel: Kel, rip: Serder, a: Seal, bup: Serder, b: Seal)
    requires rip.ilk == Rip && rip.sn == 0 && bup.ilk == Bup && bup.sn == 1 && bup.rd == rip.said && bup.prior == rip.said
    requires rip.said != bup.said && Discovered(kel, bup) == Some(b)
    ensures Validate(OneLogged(rip, a), Some(rip.said), issuer, bup) == Ok(Checked(None, Some(rip)))
    ensures Stored(OneLogged(rip, a), kel, bup)
         == OneLogged(rip, a).(evts := TwoLogged(rip, a, bup, b).evts, ancs := TwoLogged(rip, a, bup, b).ancs)
  {
  }

  lemma UpdateIsPlaced(rip: Serder, a: Seal, bup: Serder, b: Seal)
    requires rip.ilk == Rip && bup.ilk == Bup && bup.sn == 1 && bup.rd == rip.said && rip.said != bup.said
    ensures var t := OneLogged(rip, a).(evts := TwoLogged(rip, a, bup, b).evts, ancs := TwoLogged(rip, a, bup, b).ancs);
            Placed(t, bup, Some(rip)) == Outcome(TwoLogged(rip, a, bup, b), true)
  {
    var t := OneLogged(rip, a).(evts := TwoLogged(rip, a, bup, b).evts, ancs := TwoLogged(rip, a, bup, b).ancs);
    assert RemAt(t.maes, SlotOf(bup), bup.said) == t.maes[SlotOf(bup) := []];
    assert t.evts[bup.said := bup] == t.evts;
  }

  lemma UpdateIsLogged(issuer: string, kel: Kel, rip: Serder, a: Seal, bup: Serder, b: Seal)
    requires rip.ilk == Rip && rip.sn == 0 && bup.ilk == Bup && bup.sn == 1 && bup.rd == rip.said && bup.prior == rip.said
    requires rip.said != bup.said && Discovered(kel, bup) == Some(b)
    ensures Process(OneLogged(rip, a), Some(rip.said), issuer, kel, bup) == Ok(Outcome(TwoLogged(rip, a, bup, b), true))
  {
    UpdateIsStored(issuer, kel, rip, a, bup, b);
    UpdateIsPlaced(rip, a, bup, b);
    assert Drain(TwoLogged(rip, a, bup, b), rip.said, issuer) == TwoLogged(rip, a, bup, b);
  }

  lemma InceptionIsRepeated(issuer: string, kel: Kel, rip: Serder, a: Seal, bup: Serder, b: Seal)
    requires rip.ilk == Rip && rip.sn == 0 && rip.issuer == issuer && rip.said != bup.said
    ensures var t := TwoLogged(rip, a, bup, b);
            && Process(t, Some(rip.said), issuer, kel, rip) == Ok(Outcome(t, true)) && InLog(t, rip)
            && HeadOf(t, rip.said) == Some(bup.said)
  {
  }

  /** An inception and an update are logged from an empty database; repeating the inception then takes the digest back from
      the head to it. */
  lemma RepeatedInceptionIsNoHead(issuer: string, kel: Kel, rip: Serder, a: Seal, bup: Serder, b: Seal)
    requires rip.ilk == Rip && rip.sn == 0 && rip.issuer == issuer && Discovered(kel, rip) == Some(a)
    requires bup.ilk == Bup && bup.sn == 1 && bup.rd == rip.said && bup.prior == rip.said && Discovered(kel, bup) == Some(b)
    requires rip.said != bup.said
    ensures var k, t := rip.said, TwoLogged(rip, a, bup, b);
            && Process(EMPTY, None, issuer, kel, rip) == Ok(Outcome(OneLogged(rip, a), true))
            && Process(OneLogged(rip, a), Some(k), issuer, kel, bup) == Ok(Outcome(t, true))
            && AtHead(t, Some(k), Some(bup.said))
            && Process(t, Some(k), issuer, kel, rip) == Ok(Outcome(t, true))
            && NextRegd(t, Some(k), Some(bup.said), rip, Outcome(t, true)) == Some(k)
            && !AtHead(t, Some(k), Some(k))
  {
    InceptionIsLogged(issuer, kel, rip, a);
    UpdateIsLogged(issuer, kel, rip, a, bup, b);
    InceptionIsRepeated(issuer, kel, rip, a, bup, b);
  }
}
