/** When the engine's public calls refuse, and what they record when they do not. */
module RegistryCalls {
  import opened Outcomes
  import opened RegistryTables
  import opened RegistryRules
  import opened RegistryProtocol
  import opened RegistryInvariants
  import opened RegistryAnchors

  // ----- refusals ----------------------------------------------------------------------------

  /** An event is refused exactly when validation refuses it, and for the same reason. */
  lemma ProcessRefuses(t: Tables, bound: Option<Said>, issuer: string, kel: Kel, e: Serder, f: Fault)
    ensures Process(t, bound, issuer, kel, e) == Err(f) <==> Validate(t, bound, issuer, e) == Err(f)
  {
  }

  lemma ValidationFaults(t: Tables, bound: Option<Said>, issuer: string, e: Serder)
    ensures var r := Validate(t, bound, issuer, e);
            r != Err(UnknownEvent) && r != Err(HalfCouple) && r != Err(InvalidAnchor)
  {
  }

  /** A seal for the event is stored, or the key event log offers one that verifies. */
  predicate Sealable(t: Tables, kel: Kel, e: Serder) {
    e.said in t.ancs || (kel.find(e).Some? && kel.verify(e, kel.find(e).value))
  }

  /** The couple given does not verify, or none is given and no seal is known or can be found. */
  predicate BadAnchor(t: Tables, kel: Kel, e: Serder, number: Option<nat>, dig: Option<string>) {
    || (number.Some? && dig.Some? && !kel.verify(e, Seal(number.value, dig.value)))
    || (number.None? && dig.None? && !Sealable(t, kel, e))
  }

  lemma AnchoredValid(t: Tables, bound: Option<Said>, issuer: string, kel: Kel, e: Serder, couple: Option<Seal>)
    requires Validate(t, bound, issuer, e).Ok?
    ensures Process(Anchored(t, kel, e, couple), bound, issuer, kel, e).Ok?
  {
    var t' := Anchored(t, kel, e, couple);
    AnchoredLog(t, kel, e, couple);
    assert Validate(t', bound, issuer, e) == Validate(t, bound, issuer, e);
  }

  /** When anchoring a message is refused, and with which error; nothing else is refused. */
  lemma AnchorMsgExact(t: Tables, bound: Option<Said>, issuer: string, kel: Kel, said: Said,
                       number: Option<nat>, dig: Option<string>)
    requires said in t.evts ==> t.evts[said].said == said
    ensures var r := AnchorMsg(t, bound, issuer, kel, said, number, dig);
            if said !in t.evts then r == Err(UnknownEvent)
            else
              var e := t.evts[said];
              match Validate(t, bound, issuer, e)
              case Err(f) => r == Err(f) && f != UnknownEvent && f != HalfCouple && f != InvalidAnchor
              case Ok(_) =>
                && (r == Err(HalfCouple) <==> number.Some? != dig.Some?)
                && (r == Err(InvalidAnchor) <==> BadAnchor(t, kel, e, number, dig))
                && (r.Ok? <==> number.Some? == dig.Some? && !BadAnchor(t, kel, e, number, dig))
  {
    if said in t.evts {
      ValidationFaults(t, bound, issuer, t.evts[said]);
      if Validate(t, bound, issuer, t.evts[said]).Ok? {
        AnchoredValid(t, bound, issuer, kel, t.evts[said], CoupleOf(number, dig));
      }
    }
  }

  // ----- what is recorded --------------------------------------------------------------------

  ghost predicate SelfAddressed(t: Tables) {
    forall s | s in t.evts :: t.evts[s].said == s
  }

  /** The anchors after a search: a known one stays, and one that is found is stored. */
  function WithFound(ancs: map<Said, Seal>, kel: Kel, e: Serder): map<Said, Seal> {
    if e.said !in ancs && kel.find(e).Some? && kel.verify(e, kel.find(e).value) then ancs[e.said := kel.find(e).value]
    else ancs
  }

  lemma StoredRecords(t: Tables, kel: Kel, e: Serder)
    ensures Stored(t, kel, e).evts == t.evts[e.said := e] && Stored(t, kel, e).ancs == WithFound(t.ancs, kel, e)
  {
  }

  lemma PlacedRecords(t: Tables, e: Serder, prior: Option<Serder>)
    requires SelfAddressed(t) && e.said in t.evts && t.evts[e.said] == e
    ensures Placed(t, e, prior).t.evts == t.evts && Placed(t, e, prior).t.ancs == t.ancs
  {
    assert t.evts[e.said := e] == t.evts;
  }

  /** An event that is logged already changes nothing; any other accepted one is stored with the seal that is found for it,
      and no other event and no other seal is touched. */
  lemma ProcessRecords(t: Tables, bound: Option<Said>, issuer: string, kel: Kel, e: Serder, o: Outcome)
    requires Readable(t) && SelfAddressed(t) && Process(t, bound, issuer, kel, e) == Ok(o)
    ensures if SlotOf(e) in t.tels then o == Outcome(t, true)
            else o.t.evts == t.evts[e.said := e] && o.t.ancs == WithFound(t.ancs, kel, e)
  {
    var c := Validate(t, bound, issuer, e).value;
    if c.existing.None? {
      var t1 := Stored(t, kel, e);
      StoredRecords(t, kel, e);
      PlacedRecords(t1, e, c.prior);
      var p := Placed(t1, e, c.prior);
      DrainAnchors(p.t, RegkOf(e), issuer);
      DrainBodies(p.t, RegkOf(e), issuer);
    }
  }

  /** The anchors after a couple that verifies is put: it replaces only a later one. */
  function WithCouple(ancs: map<Said, Seal>, said: Said, a: Seal): map<Said, Seal> {
    if said in ancs && ancs[said].sn <= a.sn then ancs else ancs[said := a]
  }

  lemma AnchoredRecords(t: Tables, kel: Kel, e: Serder, number: Option<nat>, dig: Option<string>)
    requires number.Some? == dig.Some? && !BadAnchor(t, kel, e, number, dig)
    ensures var t' := Anchored(t, kel, e, CoupleOf(number, dig));
            && t'.ancs == (if number.Some? then WithCouple(t.ancs, e.said, Seal(number.value, dig.value))
                           else WithFound(t.ancs, kel, e))
            && t'.evts == t.evts && t'.tels == t.tels && e.said in t'.ancs
  {
    if number.Some? {
      CoupleRecords(t, kel, e, Seal(number.value, dig.value));
    } else {
      FoundRecords(t, kel, e);
    }
  }

  lemma CoupleRecords(t: Tables, kel: Kel, e: Serder, a: Seal)
    requires kel.verify(e, a)
    ensures Anchored(t, kel, e, Some(a)) == t.(ancs := WithCouple(t.ancs, e.said, a)) && e.said in WithCouple(t.ancs, e.said, a)
  {
  }

  lemma FoundRecords(t: Tables, kel: Kel, e: Serder)
    ensures Anchored(t, kel, e, None) == t.(ancs := WithFound(t.ancs, kel, e))
    ensures Sealable(t, kel, e) ==> e.said in WithFound(t.ancs, kel, e)
  {
  }

  lemma SealedRecords(t: Tables, bound: Option<Said>, issuer: string, kel: Kel, e: Serder, o: Outcome)
    requires Readable(t) && SelfAddressed(t) && Process(t, bound, issuer, kel, e) == Ok(o)
    requires e.said in t.ancs && e.said in t.evts && t.evts[e.said] == e
    ensures o.t.evts == t.evts && o.t.ancs == t.ancs
  {
    ProcessRecords(t, bound, issuer, kel, e, o);
    assert t.evts[e.said := e] == t.evts;
  }

  /** Anchoring records the couple that is given, or else the seal that is found, and no other; no body is touched. */
  lemma AnchorMsgRecords(t: Tables, bound: Option<Said>, issuer: string, kel: Kel, said: Said,
                         number: Option<nat>, dig: Option<string>, o: Outcome)
    requires Readable(t) && SelfAddressed(t) && AnchorMsg(t, bound, issuer, kel, said, number, dig) == Ok(o)
    ensures said in t.evts && o.t.evts == t.evts
    ensures o.t.ancs == if number.Some? && dig.Some? then WithCouple(t.ancs, said, Seal(number.value, dig.value))
                        else WithFound(t.ancs, kel, t.evts[said])
  {
    AnchorMsgExact(t, bound, issuer, kel, said, number, dig);
    AnchorMsgIs(t, bound, issuer, kel, said, number, dig, o);
    var e := t.evts[said];
    var t1 := Anchored(t, kel, e, CoupleOf(number, dig));
    AnchoredRecords(t, kel, e, number, dig);
    SealedRecords(t1, bound, issuer, kel, e, o);
  }
}
