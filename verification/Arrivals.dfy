/** Engines that share a store: the events of a registry end up in its log whatever order they arrive in, however
    often, at whichever engine, whenever their seals become visible, and whatever other registries do meanwhile. */
module Arrivals {
  import opened Outcomes
  import opened RegistryTables
  import opened RegistryRules
  import opened RegistryProtocol
  import opened RegistryInvariants
  import opened RegistryDelivery
  import opened RegistryApart
  import opened DeliveryOrder

  /** Of the chain's registry, only events of the chain are handed to an engine. */
  predicate OfChain(c: seq<Serder>, call: Call)
    requires c != []
  {
    call.Deliver? && RegkOf(call.e) == c[0].said ==> call.e.sn < |c| && call.e == c[call.e.sn]
  }

  /** Engines bound to the chain's registry work for its issuer. */
  ghost predicate Staffed(sys: System, staff: Staff, c: seq<Serder>)
    requires c != []
  {
    forall n | n in sys.bound && sys.bound[n] == c[0].said :: staff(n) == c[0].issuer
  }

  /** The call hands an event of the chain to an engine of its registry, or the inception to an engine of its
      issuer that is not bound yet. */
  predicate Receives(sys: System, staff: Staff, c: seq<Serder>, call: Call)
    requires c != []
  {
    && call.Deliver? && RegkOf(call.e) == c[0].said
    && (BoundOf(sys, call.engine) == Some(c[0].said)
        || (BoundOf(sys, call.engine).None? && call.e.ilk.Rip? && staff(call.engine) == c[0].issuer))
  }

  function Received(sys: System, staff: Staff, c: seq<Serder>, call: Call): set<nat>
    requires c != []
  {
    if Receives(sys, staff, c, call) then {call.e.sn} else {}
  }

  /** The indexes of the chain's events that were received in a run. */
  function Heard(sys: System, staff: Staff, c: seq<Serder>, calls: seq<Call>): set<nat>
    requires c != []
    decreases |calls|
  {
    if calls == [] then {}
    else
      var front := calls[..|calls| - 1];
      Heard(sys, staff, c, front) + Received(Calls(sys, staff, front), staff, c, calls[|calls| - 1])
  }

  /** Between calls: the received events of the chain are all held, and no others of its registry are stored. */
  ghost predicate Accounted(w: World, t: Tables, c: seq<Serder>, seen: set<nat>)
    requires c != []
  {
    Delivered(w, t, c, c[0].issuer, seen, {})
  }

  // ----- calls for other registries ----------------------------------------------------------

  lemma ApartChain(w: World, t: Tables, t': Tables, c: seq<Serder>, issuer: string, seen: set<nat>)
    requires IsChain(w, c, issuer) && OnlyChain(w, t, c, seen) && Apart(w, t, t', c[0].said)
    ensures OnlyChain(w, t', c, seen)
  {
    forall s | s in t'.evts && RegkOf(w.doc(s)) == c[0].said ensures s in t.evts {
      assert SameEvent(t, t', s);
    }
  }

  lemma ApartHeld(w: World, t: Tables, t': Tables, c: seq<Serder>, issuer: string, seen: set<nat>)
    requires IsChain(w, c, issuer) && AllHeld(t, c, seen) && Apart(w, t, t', c[0].said)
    ensures AllHeld(t', c, seen)
  {
    forall i | i in seen ensures i < |c| && Held(t', c[i]) && c[i].said in t'.evts {
      assert SlotOf(c[i]) == Slot(c[0].said, i) && w.doc(c[i].said) == c[i];
      assert SameSlot(t, t', SlotOf(c[i])) && SameEvent(t, t', c[i].said);
    }
  }

  lemma ApartDelivers(w: World, t: Tables, t': Tables, c: seq<Serder>, issuer: string, seen: set<nat>)
    requires Delivered(w, t, c, issuer, seen, {}) && Apart(w, t, t', c[0].said) && Steady(w, t', {}, None)
    ensures Delivered(w, t', c, issuer, seen, {})
  {
    ApartChain(w, t, t', c, issuer, seen);
    ApartHeld(w, t, t', c, issuer, seen);
  }

  // ----- one call ----------------------------------------------------------------------------

  lemma UnboundInception(t: Tables, issuer: string, kel: Kel, e: Serder)
    requires e.ilk.Rip?
    ensures Process(t, None, issuer, kel, e) == Process(t, Some(RegkOf(e)), issuer, kel, e)
  {
  }

  /** An event of the chain that is not received is refused. */
  lemma UnheardIsRefused(w: World, sys: System, staff: Staff, c: seq<Serder>, call: Call)
    requires c != [] && IsChain(w, c, c[0].issuer) && OfChain(c, call) && call.Deliver? && RegkOf(call.e) == c[0].said
    requires !Receives(sys, staff, c, call)
    ensures Process(sys.t, BoundOf(sys, call.engine), staff(call.engine), call.kel, call.e).Err?
  {
    assert call.e.ilk.Rip? ==> call.e == c[0];
  }

  lemma HeardIsProcessed(w: World, sys: System, staff: Staff, c: seq<Serder>, call: Call)
    requires c != [] && Staffed(sys, staff, c) && Receives(sys, staff, c, call)
    ensures Process(sys.t, BoundOf(sys, call.engine), staff(call.engine), call.kel, call.e)
         == Process(sys.t, Some(c[0].said), c[0].issuer, call.kel, call.e)
  {
    if BoundOf(sys, call.engine).None? {
      UnboundInception(sys.t, staff(call.engine), call.kel, call.e);
    }
  }

  lemma ReceivedDelivers(w: World, sys: System, staff: Staff, c: seq<Serder>, seen: set<nat>, call: Call)
    requires c != [] && Accounted(w, sys.t, c, seen) && Staffed(sys, staff, c)
    requires Honest(w, call) && OfChain(c, call) && Receives(sys, staff, c, call)
    ensures var sys' := React(sys, staff, call);
            && Accounted(w, sys'.t, c, seen + {call.e.sn})
            && (Discovered(call.kel, call.e).Some? ==> call.e.said in sys'.t.ancs)
            && BoundOf(sys', call.engine) == Some(c[0].said)
  {
    HeardIsProcessed(w, sys, staff, c, call);
    var o := ProcessDelivers(w, sys.t, call.kel, c, c[0].issuer, seen, call.e.sn, {});
    WaitingMono(o.t, {} - {call.e.said}, {});
  }

  lemma DeliverCase(w: World, sys: System, staff: Staff, c: seq<Serder>, seen: set<nat>, call: Call)
    requires c != [] && Accounted(w, sys.t, c, seen) && Staffed(sys, staff, c)
    requires Honest(w, call) && OfChain(c, call) && call.Deliver? && !Receives(sys, staff, c, call)
    ensures Accounted(w, React(sys, staff, call).t, c, seen)
  {
    var r := Process(sys.t, BoundOf(sys, call.engine), staff(call.engine), call.kel, call.e);
    if RegkOf(call.e) == c[0].said {
      UnheardIsRefused(w, sys, staff, c, call);
    } else if r.Ok? {
      ReactKeeps(w, sys, staff, call);
      ProcessApart(w, sys.t, BoundOf(sys, call.engine), staff(call.engine), call.kel, call.e, r.value, c[0].said);
      ApartDelivers(w, sys.t, r.value.t, c, c[0].issuer, seen);
    }
  }

  lemma AnchoredOnly(t: Tables, kel: Kel, e: Serder, couple: Option<Seal>)
    ensures Anchored(t, kel, e, couple) == t.(ancs := Anchored(t, kel, e, couple).ancs)
  {
  }

  /** Anchoring an event of the chain again loses nothing. */
  lemma OwnAnchor(w: World, t: Tables, bound: Option<Said>, issuer: string, kel: Kel, c: seq<Serder>, seen: set<nat>,
                  e: Serder, couple: Option<Seal>, o: Outcome)
    requires c != [] && Accounted(w, t, c, seen) && Sound(w, kel)
    requires e.said in t.evts && w.doc(e.said) == e && RegkOf(e) == c[0].said
    requires bound == Some(c[0].said) ==> issuer == c[0].issuer
    requires Process(Anchored(t, kel, e, couple), bound, issuer, kel, e) == Ok(o)
    ensures Accounted(w, o.t, c, seen) && issuer == c[0].issuer
  {
    var t1 := Anchored(t, kel, e, couple);
    StoredReplays(w, t, c, c[0].issuer, seen, e.said);
    AcceptedBinds(t1, bound, issuer, kel, e, o);
    AnchoredKeeps(w, t, kel, e, couple, {});
    AnchoredOnly(t, kel, e, couple);
    GatheredHolds(t, t1, c, seen);
    SameTracks(w, t, t1, c, seen);
    var o' := ProcessDelivers(w, t1, kel, c, c[0].issuer, seen, e.sn, {} + {e.said});
    SeenAgain(seen, e.sn);
    WaitingMono(o.t, {} + {e.said} - {e.said}, {});
  }

  lemma AnchorCase(w: World, sys: System, staff: Staff, c: seq<Serder>, seen: set<nat>, call: Call)
    requires c != [] && Accounted(w, sys.t, c, seen) && Staffed(sys, staff, c) && Honest(w, call) && call.Anchor?
    ensures Accounted(w, React(sys, staff, call).t, c, seen)
  {
    var bound, issuer := BoundOf(sys, call.engine), staff(call.engine);
    var r := AnchorMsg(sys.t, bound, issuer, call.kel, call.said, call.number, call.dig);
    if call.said in sys.t.evts && r.Ok? {
      var e, couple := sys.t.evts[call.said], CoupleOf(call.number, call.dig);
      AnchorMsgIs(sys.t, bound, issuer, call.kel, call.said, call.number, call.dig, r.value);
      StoredIsGenuine(w, sys.t, call.said);
      if RegkOf(e) == c[0].said {
        OwnAnchor(w, sys.t, bound, issuer, call.kel, c, seen, e, couple, r.value);
      } else {
        var t1 := Anchored(sys.t, call.kel, e, couple);
        ReactKeeps(w, sys, staff, call);
        AnchoredApart(w, sys.t, call.kel, e, couple, c[0].said);
        ProcessApart(w, t1, bound, issuer, call.kel, e, r.value, c[0].said);
        ApartTrans(w, sys.t, t1, r.value.t, c[0].said);
        ApartDelivers(w, sys.t, r.value.t, c, c[0].issuer, seen);
      }
    }
  }

  lemma EscrowsCase(w: World, sys: System, staff: Staff, c: seq<Serder>, seen: set<nat>, call: Call)
    requires c != [] && Accounted(w, sys.t, c, seen) && Staffed(sys, staff, c) && Honest(w, call) && call.Escrows?
    ensures Accounted(w, React(sys, staff, call).t, c, seen)
    ensures BoundOf(sys, call.engine) == Some(c[0].said) && FindsAll(call.kel, c, seen) ==>
              AllAnchored(React(sys, staff, call).t, c, seen)
  {
    if BoundOf(sys, call.engine) == Some(c[0].said) {
      SweepDelivers(w, sys.t, call.kel, c, c[0].issuer, seen);
    } else {
      ReactKeeps(w, sys, staff, call);
      EscrowsApart(w, sys.t, BoundOf(sys, call.engine), staff(call.engine), call.kel, c[0].said);
      ApartDelivers(w, sys.t, React(sys, staff, call).t, c, c[0].issuer, seen);
    }
  }

  lemma NothingMore(seen: set<nat>)
    ensures seen + {} == seen
  {
  }

  lemma ReactDelivers(w: World, sys: System, staff: Staff, c: seq<Serder>, seen: set<nat>, call: Call)
    requires c != [] && Accounted(w, sys.t, c, seen) && Staffed(sys, staff, c) && Honest(w, call) && OfChain(c, call)
    ensures Accounted(w, React(sys, staff, call).t, c, seen + Received(sys, staff, c, call))
  {
    NothingMore(seen);
    if Receives(sys, staff, c, call) {
      ReceivedDelivers(w, sys, staff, c, seen, call);
    } else {
      match call {
        case Deliver(_, _, _) => DeliverCase(w, sys, staff, c, seen, call);
        case Anchor(_, _, _, _, _) => AnchorCase(w, sys, staff, c, seen, call);
        case Escrows(_, _) => EscrowsCase(w, sys, staff, c, seen, call);
      }
    }
  }

  /** Only the issuer's engines get bound to the registry. */
  lemma StaffStays(w: World, sys: System, staff: Staff, c: seq<Serder>, seen: set<nat>, call: Call)
    requires c != [] && Accounted(w, sys.t, c, seen) && Staffed(sys, staff, c) && Honest(w, call) && OfChain(c, call)
    ensures Staffed(React(sys, staff, call), staff, c)
  {
    var bound, issuer := BoundOf(sys, call.engine), staff(call.engine);
    match call
    case Deliver(_, kel, e) =>
      var r := Process(sys.t, bound, issuer, kel, e);
      if r.Ok? { AcceptedBinds(sys.t, bound, issuer, kel, e, r.value); }
    case Anchor(_, kel, said, number, dig) =>
      var r := AnchorMsg(sys.t, bound, issuer, kel, said, number, dig);
      if said in sys.t.evts && r.Ok? {
        AnchorMsgIs(sys.t, bound, issuer, kel, said, number, dig, r.value);
        StoredIsGenuine(w, sys.t, said);
        if RegkOf(sys.t.evts[said]) == c[0].said {
          OwnAnchor(w, sys.t, bound, issuer, kel, c, seen, sys.t.evts[said], CoupleOf(number, dig), r.value);
        }
      }
    case Escrows(_, _) =>
  }

  // ----- whole runs --------------------------------------------------------------------------

  lemma {:induction false} RunDelivers(w: World, sys: System, staff: Staff, c: seq<Serder>, calls: seq<Call>)
    requires c != [] && IsChain(w, c, c[0].issuer) && sys.t == EMPTY && Staffed(sys, staff, c)
    requires forall call | call in calls :: Honest(w, call) && OfChain(c, call)
    ensures Accounted(w, Calls(sys, staff, calls).t, c, Heard(sys, staff, c, calls))
    ensures Staffed(Calls(sys, staff, calls), staff, c)
    decreases |calls|
  {
    if calls == [] {
      EmptySteady(w);
    } else {
      var front, call := calls[..|calls| - 1], calls[|calls| - 1];
      var before, seen := Calls(sys, staff, front), Heard(sys, staff, c, front);
      RunDelivers(w, sys, staff, c, front);
      ReactDelivers(w, before, staff, c, seen, call);
      StaffStays(w, before, staff, c, seen, call);
    }
  }

  /** An event of the chain that is received finds its seal then. */
  predicate FindsSeal(sys: System, staff: Staff, c: seq<Serder>, call: Call)
    requires c != []
  {
    Receives(sys, staff, c, call) ==> Discovered(call.kel, call.e).Some?
  }

  /** So do all events of the chain that are received in a run. */
  predicate FindSeals(sys: System, staff: Staff, c: seq<Serder>, calls: seq<Call>)
    requires c != []
    decreases |calls|
  {
    calls == [] ||
    (FindSeals(sys, staff, c, calls[..|calls| - 1])
     && FindsSeal(Calls(sys, staff, calls[..|calls| - 1]), staff, c, calls[|calls| - 1]))
  }

  lemma ReactAnchors(w: World, sys: System, staff: Staff, c: seq<Serder>, seen: set<nat>, call: Call)
    requires c != [] && Accounted(w, sys.t, c, seen) && Staffed(sys, staff, c) && AllAnchored(sys.t, c, seen)
    requires Honest(w, call) && OfChain(c, call) && FindsSeal(sys, staff, c, call)
    ensures AllAnchored(React(sys, staff, call).t, c, seen + Received(sys, staff, c, call))
  {
    ReactKeeps(w, sys, staff, call);
    if Receives(sys, staff, c, call) {
      ReceivedDelivers(w, sys, staff, c, seen, call);
    }
    AnchoredMore(sys.t, React(sys, staff, call).t, c, seen, Received(sys, staff, c, call));
  }

  lemma AnchoredMore(t: Tables, t': Tables, c: seq<Serder>, seen: set<nat>, more: set<nat>)
    requires AllAnchored(t, c, seen) && t.ancs.Keys <= t'.ancs.Keys && AllAnchored(t', c, more)
    ensures AllAnchored(t', c, seen + more)
  {
    forall i | i in seen + more && i < |c| ensures c[i].said in t'.ancs {
      assert i in seen ==> c[i].said in t.ancs.Keys;
    }
  }

  lemma {:induction false} RunAnchors(w: World, sys: System, staff: Staff, c: seq<Serder>, calls: seq<Call>)
    requires c != [] && IsChain(w, c, c[0].issuer) && sys.t == EMPTY && Staffed(sys, staff, c)
    requires (forall call | call in calls :: Honest(w, call) && OfChain(c, call)) && FindSeals(sys, staff, c, calls)
    ensures AllAnchored(Calls(sys, staff, calls).t, c, Heard(sys, staff, c, calls))
    decreases |calls|
  {
    if calls != [] {
      var front, call := calls[..|calls| - 1], calls[|calls| - 1];
      RunDelivers(w, sys, staff, c, front);
      RunAnchors(w, sys, staff, c, front);
      ReactAnchors(w, Calls(sys, staff, front), staff, c, Heard(sys, staff, c, front), call);
    }
  }

  /** When every event of a registry finds its seal as it is received, the registry's log is the longest prefix of its
      chain that was received, whatever else goes on in the store: neither order nor repetition matters. */
  lemma DeliveryOrderFree(w: World, bound: map<nat, Said>, staff: Staff, c: seq<Serder>, calls: seq<Call>, n: nat)
    requires c != [] && IsChain(w, c, c[0].issuer) && Staffed(System(bound, EMPTY), staff, c)
    requires forall call | call in calls :: Honest(w, call) && OfChain(c, call)
    requires FindSeals(System(bound, EMPTY), staff, c, calls)
    requires var heard := Heard(System(bound, EMPTY), staff, c, calls);
             n <= |c| && n !in heard && forall i | 0 <= i < n :: i in heard
    ensures var sys := System(bound, EMPTY);
            LogIsPrefix(Calls(sys, staff, calls).t, c, n, Heard(sys, staff, c, calls))
  {
    var sys := System(bound, EMPTY);
    RunDelivers(w, sys, staff, c, calls);
    RunAnchors(w, sys, staff, c, calls);
    PrefixExact(w, Calls(sys, staff, calls).t, c, c[0].issuer, Heard(sys, staff, c, calls), n);
  }

  /** Whatever seals were visible while the events arrived, one pass over the registry's escrows with all of them
      visible leads to the same log. */
  lemma SweepCatchesUp(w: World, bound: map<nat, Said>, staff: Staff, c: seq<Serder>, calls: seq<Call>, sweep: Call, n: nat)
    requires c != [] && IsChain(w, c, c[0].issuer) && Staffed(System(bound, EMPTY), staff, c)
    requires forall call | call in calls :: Honest(w, call) && OfChain(c, call)
    requires var sys := System(bound, EMPTY);
             && sweep.Escrows? && Honest(w, sweep) && FindsAll(sweep.kel, c, Heard(sys, staff, c, calls))
             && BoundOf(Calls(sys, staff, calls), sweep.engine) == Some(c[0].said)
    requires var heard := Heard(System(bound, EMPTY), staff, c, calls);
             n <= |c| && n !in heard && forall i | 0 <= i < n :: i in heard
    ensures var sys := System(bound, EMPTY);
            LogIsPrefix(React(Calls(sys, staff, calls), staff, sweep).t, c, n, Heard(sys, staff, c, calls))
  {
    var sys := System(bound, EMPTY);
    var heard := Heard(sys, staff, c, calls);
    RunDelivers(w, sys, staff, c, calls);
    EscrowsCase(w, Calls(sys, staff, calls), staff, c, heard, sweep);
    PrefixExact(w, React(Calls(sys, staff, calls), staff, sweep).t, c, c[0].issuer, heard, n);
  }

  // ----- an engine that is not bound yet -----------------------------------------------------

  /** All calls hand events of the chain to one engine, and the inception comes m-th at the earliest. */
  predicate OneEngine(c: seq<Serder>, calls: seq<Call>, engine: nat, m: nat)
    requires c != []
  {
    && (forall j | 0 <= j < |calls| :: calls[j].Deliver? && calls[j].engine == engine && RegkOf(calls[j].e) == c[0].said)
    && (forall j | 0 <= j < |calls| && j < m :: calls[j].e != c[0])
    && (m < |calls| ==> calls[m].e == c[0])
  }

  lemma HeardStep(sys: System, staff: Staff, c: seq<Serder>, calls: seq<Call>)
    requires c != [] && calls != []
    ensures var n := |calls| - 1;
            Heard(sys, staff, c, calls)
            == Heard(sys, staff, c, calls[..n]) + Received(Calls(sys, staff, calls[..n]), staff, c, calls[n])
  {
  }

  /** An unbound engine refuses every event of the chain but the inception. */
  lemma InceptionOnly(w: World, sys: System, staff: Staff, c: seq<Serder>, call: Call)
    requires c != [] && IsChain(w, c, c[0].issuer) && OfChain(c, call)
    requires call.Deliver? && RegkOf(call.e) == c[0].said && call.e != c[0] && BoundOf(sys, call.engine).None?
    ensures !Receives(sys, staff, c, call) && React(sys, staff, call) == sys
  {
    assert call.e == c[call.e.sn] && call.e.sn > 0;
  }

  predicate AllDeliver(calls: seq<Call>) {
    forall j | 0 <= j < |calls| :: calls[j].Deliver?
  }

  /** The sequence numbers handed over from the m-th call on. */
  function LaterSns(calls: seq<Call>, m: nat): set<nat>
    requires AllDeliver(calls)
  {
    set j | m <= j < |calls| :: calls[j].e.sn
  }

  lemma LaterStep(calls: seq<Call>, m: nat)
    requires AllDeliver(calls) && calls != []
    ensures var n := |calls| - 1;
            LaterSns(calls, m) == LaterSns(calls[..n], m) + if m <= n then {calls[n].e.sn} else {}
  {
    var n := |calls| - 1;
    var front := calls[..n];
    forall sn | sn in LaterSns(calls, m) ensures sn in LaterSns(front, m) + if m <= n then {calls[n].e.sn} else {} {
      var j :| m <= j < |calls| && calls[j].e.sn == sn;
      assert j < n ==> front[j] == calls[j];
    }
    forall j | m <= j < n ensures calls[j].e.sn in LaterSns(calls, m) && front[j] == calls[j] {
    }
  }

  lemma FrontOneEngine(c: seq<Serder>, calls: seq<Call>, engine: nat, m: nat)
    requires c != [] && OneEngine(c, calls, engine, m) && calls != []
    ensures OneEngine(c, calls[..|calls| - 1], engine, m)
  {
  }

  /** One more event at the engine: the inception binds it, and from then on it receives everything. */
  lemma OneMore(w: World, before: System, staff: Staff, c: seq<Serder>, seen: set<nat>, call: Call, late: bool)
    requires c != [] && Accounted(w, before.t, c, seen) && Staffed(before, staff, c) && Honest(w, call) && OfChain(c, call)
    requires call.Deliver? && RegkOf(call.e) == c[0].said && staff(call.engine) == c[0].issuer
    requires BoundOf(before, call.engine) == Some(c[0].said)
             || (BoundOf(before, call.engine) == None && (late <==> call.e == c[0]))
    requires BoundOf(before, call.engine).Some? ==> late
    ensures Received(before, staff, c, call) == if late then {call.e.sn} else {}
    ensures BoundOf(React(before, staff, call), call.engine) == if late then Some(c[0].said) else None
  {
    if late {
      ReceivedDelivers(w, before, staff, c, seen, call);
    } else {
      InceptionOnly(w, before, staff, c, call);
    }
  }

  lemma UnboundStep(w: World, sys: System, staff: Staff, c: seq<Serder>, calls: seq<Call>, engine: nat, m: nat)
    requires c != [] && calls != [] && OneEngine(c, calls, engine, m) && staff(engine) == c[0].issuer
    requires Honest(w, calls[|calls| - 1]) && OfChain(c, calls[|calls| - 1])
    requires var front := calls[..|calls| - 1];
             && Accounted(w, Calls(sys, staff, front).t, c, Heard(sys, staff, c, front))
             && Staffed(Calls(sys, staff, front), staff, c)
             && BoundOf(Calls(sys, staff, front), engine) == (if m < |front| then Some(c[0].said) else None)
             && Heard(sys, staff, c, front) == LaterSns(front, m)
    ensures BoundOf(Calls(sys, staff, calls), engine) == if m < |calls| then Some(c[0].said) else None
    ensures Heard(sys, staff, c, calls) == LaterSns(calls, m)
  {
    var n := |calls| - 1;
    var front := calls[..n];
    HeardStep(sys, staff, c, calls);
    LaterStep(calls, m);
    OneMore(w, Calls(sys, staff, front), staff, c, Heard(sys, staff, c, front), calls[n], m <= n);
  }

  /** An engine that starts unbound receives what arrives from the inception on, and nothing before it. */
  lemma {:induction false} UnboundHearsFromInception(w: World, sys: System, staff: Staff, c: seq<Serder>, calls: seq<Call>,
                                                     engine: nat, m: nat)
    requires c != [] && IsChain(w, c, c[0].issuer) && sys.t == EMPTY && Staffed(sys, staff, c)
    requires forall call | call in calls :: Honest(w, call) && OfChain(c, call)
    requires OneEngine(c, calls, engine, m) && engine !in sys.bound && staff(engine) == c[0].issuer
    ensures BoundOf(Calls(sys, staff, calls), engine) == if m < |calls| then Some(c[0].said) else None
    ensures Heard(sys, staff, c, calls) == LaterSns(calls, m)
    decreases |calls|
  {
    if calls != [] {
      var front := calls[..|calls| - 1];
      FrontOneEngine(c, calls, engine, m);
      UnboundHearsFromInception(w, sys, staff, c, front, engine, m);
      RunDelivers(w, sys, staff, c, front);
      UnboundStep(w, sys, staff, c, calls, engine, m);
    }
  }
}
