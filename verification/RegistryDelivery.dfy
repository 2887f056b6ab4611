/** Whole runs of event engines on one store: every registry's log stays one gap-free chain. */
module RegistryDelivery {
  import opened Outcomes
  import opened RegistryTables
  import opened RegistryRules
  import opened RegistryProtocol
  import opened RegistryInvariants

  // ----- runs of calls -----------------------------------------------------------------------

  /** The engines of a registrar share one store; each is bound to at most one registry. */
  datatype System = System(bound: map<nat, Said>, t: Tables)

  function BoundOf(sys: System, engine: nat): Option<Said> {
    if engine in sys.bound then Some(sys.bound[engine]) else None
  }

  /** One call of one engine, with the key event log as it is at that moment. */
  datatype Call =
    | Deliver(engine: nat, kel: Kel, e: Serder)
    | Anchor(engine: nat, kel: Kel, said: Said, number: Option<nat>, dig: Option<string>)
    | Escrows(engine: nat, kel: Kel)

  type Staff = nat -> string

  function Settled(sys: System, engine: nat, regk: Said, r: Result<Outcome, Fault>): System {
    match r
    case Ok(o) => System(sys.bound[engine := regk], o.t)
    case Err(_) => sys
  }

  /** An accepted event binds its engine to its registry; a refused call leaves no trace. The staff names the
      issuer each engine works for. */
  function React(sys: System, staff: Staff, call: Call): System {
    var bound, issuer := BoundOf(sys, call.engine), staff(call.engine);
    match call
    case Deliver(n, kel, e) => Settled(sys, n, RegkOf(e), Process(sys.t, bound, issuer, kel, e))
    case Anchor(n, kel, said, number, dig) =>
      if said in sys.t.evts
      then Settled(sys, n, RegkOf(sys.t.evts[said]), AnchorMsg(sys.t, bound, issuer, kel, said, number, dig))
      else sys
    case Escrows(_, kel) => sys.(t := ProcessEscrows(sys.t, bound, issuer, kel))
  }

  function Calls(sys: System, staff: Staff, calls: seq<Call>): System
    decreases |calls|
  {
    if calls == [] then sys else React(Calls(sys, staff, calls[..|calls| - 1]), staff, calls[|calls| - 1])
  }

  /** The event is the one its SAID digests, and the key event log vouches only for real seals. */
  ghost predicate Honest(w: World, call: Call) {
    Sound(w, call.kel) && (call.Deliver? ==> w.doc(call.e.said) == call.e)
  }

  lemma GrowsSelf(t: Tables)
    ensures Grows(t, t)
  {
  }

  lemma ReactKeeps(w: World, sys: System, staff: Staff, call: Call)
    requires Steady(w, sys.t, {}, None) && Honest(w, call)
    ensures Steady(w, React(sys, staff, call).t, {}, None) && Grows(sys.t, React(sys, staff, call).t)
  {
    GrowsSelf(sys.t);
    var bound, issuer := BoundOf(sys, call.engine), staff(call.engine);
    match call
    case Deliver(_, kel, e) =>
      if Process(sys.t, bound, issuer, kel, e).Ok? {
        ProcessKeeps(w, sys.t, bound, issuer, kel, e, {});
        WaitingMono(React(sys, staff, call).t, {} - {e.said}, {});
      }
    case Anchor(_, kel, said, number, dig) =>
      var r := AnchorMsg(sys.t, bound, issuer, kel, said, number, dig);
      if r.Ok? {
        AnchorMsgKeeps(w, sys.t, bound, issuer, kel, said, number, dig, r.value);
      }
    case Escrows(_, kel) => EscrowsKeep(w, sys.t, bound, issuer, kel);
  }

  /** Every run of any number of engines on one store keeps the rules; no log entry or body is ever lost or
      altered, and an anchor only gives way to an earlier one. */
  lemma {:induction false} CallsKeep(w: World, sys: System, staff: Staff, calls: seq<Call>, n: nat)
    requires Steady(w, sys.t, {}, None) && n <= |calls| && forall call | call in calls :: Honest(w, call)
    ensures Steady(w, Calls(sys, staff, calls).t, {}, None)
    ensures Grows(Calls(sys, staff, calls[..n]).t, Calls(sys, staff, calls).t)
    decreases |calls|
  {
    if n == |calls| {
      assert calls[..n] == calls;
      GrowsSelf(Calls(sys, staff, calls).t);
    }
    if calls != [] {
      var front, call := calls[..|calls| - 1], calls[|calls| - 1];
      var before := Calls(sys, staff, front);
      CallsKeep(w, sys, staff, front, if n < |calls| then n else 0);
      ReactKeeps(w, before, staff, call);
      if n < |calls| {
        assert front[..n] == calls[..n];
        GrowsTrans(Calls(sys, staff, calls[..n]).t, before.t, Calls(sys, staff, calls).t);
      }
    }
  }

  lemma EmptySteady(w: World)
    ensures Steady(w, EMPTY, {}, None)
  {
    EmptyInv(w);
  }

  // ----- the shape of the log ----------------------------------------------------------------

  /** The log of a registry runs without a gap from the registry's own inception to its head. */
  ghost predicate GapFree(t: Tables, regk: Said) {
    && (forall n: nat :: Slot(regk, n) in t.tels <==> n <= HeadSn(t, regk))
    && (regk in t.heads ==> HeadSn(t, regk) >= 0 && Slot(regk, HeadSn(t, regk)) in t.tels
                            && t.tels[Slot(regk, HeadSn(t, regk))] == t.heads[regk])
    && (Slot(regk, 0) in t.tels ==> t.tels[Slot(regk, 0)] == regk)
  }

  /** The entry is anchored by a real seal and names the entry below it. */
  ghost predicate Borne(w: World, t: Tables, slot: Slot) {
    && slot in t.tels && t.tels[slot] in t.ancs && w.sealed(w.doc(t.tels[slot]), t.ancs[t.tels[slot]])
    && (slot.sn > 0 ==> Slot(slot.regk, slot.sn - 1) in t.tels
                        && w.doc(t.tels[slot]).prior == t.tels[Slot(slot.regk, slot.sn - 1)])
  }

  lemma LogIsGapFree(w: World, t: Tables, regk: Said)
    requires Bodies(w, t) && Log(w, t) && Heads(w, t)
    ensures GapFree(t, regk)
  {
    HeadExact(w, t, regk);
    if regk in t.heads {
      assert HeadTop(w, t, regk);
      forall n: nat ensures Slot(regk, n) in t.tels <==> n <= HeadSn(t, regk) {
        if n <= HeadSn(t, regk) {
          BelowLogged(w, t, regk, HeadSn(t, regk), n);
        } else if Slot(regk, n) in t.tels {
          BelowLogged(w, t, regk, n, HeadSn(t, regk) + 1);
        }
      }
    }
    if Slot(regk, 0) in t.tels {
      assert Entry(w, t, Slot(regk, 0));
    }
  }

  lemma LogIsBorne(w: World, t: Tables, slot: Slot)
    requires Seals(w, t) && Log(w, t) && slot in t.tels
    ensures Borne(w, t, slot)
  {
    assert Entry(w, t, slot);
  }

  /** From an empty database, whatever engines are at work and whatever they are called with: every registry's
      log is gap-free, and every entry in it is anchored and chained. */
  lemma EveryRunIsChained(w: World, bound: map<nat, Said>, staff: Staff, calls: seq<Call>)
    requires forall call | call in calls :: Honest(w, call)
    ensures var t := Calls(System(bound, EMPTY), staff, calls).t;
            && (forall regk :: GapFree(t, regk))
            && (forall slot | slot in t.tels :: Borne(w, t, slot))
  {
    var t := Calls(System(bound, EMPTY), staff, calls).t;
    EmptySteady(w);
    CallsKeep(w, System(bound, EMPTY), staff, calls, 0);
    forall regk ensures GapFree(t, regk) {
      LogIsGapFree(w, t, regk);
    }
    forall slot | slot in t.tels ensures Borne(w, t, slot) {
      LogIsBorne(w, t, slot);
    }
  }

  // ----- bindings ----------------------------------------------------------------------------

  /** What an engine accepts binds it, or belongs to the registry it is bound to. */
  lemma AcceptedBinds(t: Tables, bound: Option<Said>, issuer: string, kel: Kel, e: Serder, o: Outcome)
    requires Process(t, bound, issuer, kel, e) == Ok(o)
    ensures bound.Some? ==> RegkOf(e) == bound.value
    ensures bound.None? ==> e.ilk.Rip? && e.issuer == issuer
    ensures Process(t, Some(RegkOf(e)), issuer, kel, e) == Ok(o)
  {
  }

  lemma BindingStays(w: World, sys: System, staff: Staff, call: Call, engine: nat)
    requires Bodies(w, sys.t) && engine in sys.bound
    ensures var sys' := React(sys, staff, call); engine in sys'.bound && sys'.bound[engine] == sys.bound[engine]
  {
    if call.Anchor? && call.said in sys.t.evts {
      var r := AnchorMsg(sys.t, BoundOf(sys, call.engine), staff(call.engine), call.kel, call.said, call.number, call.dig);
      if r.Ok? {
        AnchorMsgIs(sys.t, BoundOf(sys, call.engine), staff(call.engine), call.kel, call.said, call.number, call.dig, r.value);
      }
    }
  }
}
