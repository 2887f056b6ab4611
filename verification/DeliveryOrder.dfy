/** The events of one registry end up in its log whatever order they arrive in, however often, and whenever
    their seals become visible. */
module DeliveryOrder {
  import opened Outcomes
  import opened RegistryTables
  import opened InsertionSets
  import opened RegistryStore
  import opened RegistryRules
  import opened RegistryProtocol
  import opened RegistryInvariants
  import opened RegistryDelivery

  /** The events of one registry: its inception, then updates that each name the one before. */
  ghost predicate IsChain(w: World, c: seq<Serder>, issuer: string) {
    && c != [] && c[0].ilk == Rip && c[0].issuer == issuer
    && (forall i | 0 <= i < |c| :: w.doc(c[i].said) == c[i] && c[i].sn == i && SlotOf(c[i]) == Slot(c[0].said, i))
    && (forall i | 0 < i < |c| :: c[i].ilk == Bup && c[i].prior == c[i - 1].said)
  }

  /** Of the chain's registry, only delivered events of the chain are stored. */
  ghost predicate OnlyChain(w: World, t: Tables, c: seq<Serder>, seen: set<nat>)
    requires c != []
  {
    forall s | s in t.evts && RegkOf(w.doc(s)) == c[0].said ::
      w.doc(s).sn in seen && w.doc(s).sn < |c| && c[w.doc(s).sn].said == s
  }

  /** The event is logged, queued, or waits for its anchor. */
  predicate Held(t: Tables, e: Serder) {
    InLog(t, e) || e.said in Entries(t.ooes, SlotOf(e)) || e.said in Entries(t.maes, SlotOf(e))
  }

  // ----- chain events stay valid -------------------------------------------------------------

  lemma LoggedIsChain(w: World, t: Tables, c: seq<Serder>, issuer: string, seen: set<nat>, i: nat)
    requires IsChain(w, c, issuer) && Bodies(w, t) && Log(w, t) && OnlyChain(w, t, c, seen)
    requires i < |c| && Slot(c[0].said, i) in t.tels
    ensures t.tels[Slot(c[0].said, i)] == c[i].said && Logged(t, Slot(c[0].said, i)) == Some(c[i]) && i in seen
  {
    assert Entry(w, t, Slot(c[0].said, i));
  }

  lemma ChainValid(w: World, t: Tables, c: seq<Serder>, issuer: string, seen: set<nat>, i: nat)
    requires IsChain(w, c, issuer) && Bodies(w, t) && Log(w, t) && OnlyChain(w, t, c, seen) && i < |c|
    ensures Validate(t, Some(c[0].said), issuer, c[i]).Ok?
  {
    if Slot(c[0].said, i) in t.tels {
      LoggedIsChain(w, t, c, issuer, seen, i);
    }
    if i > 0 && Slot(c[0].said, i - 1) in t.tels {
      LoggedIsChain(w, t, c, issuer, seen, i - 1);
    }
  }

  // ----- nothing is lost ---------------------------------------------------------------------

  predicate Waits(t: Tables, h: Slot, x: Said) {
    x in Entries(t.ooes, h) || x in Entries(t.maes, h)
  }

  lemma ClearedHolds(t: Tables, slot: Slot, y: Said, h: Slot, x: Said)
    requires Lists(t) && x != y && Waits(t, h, x)
    ensures Waits(Cleared(t, slot, y), h, x)
  {
    RemMembers(Entries(t.maes, slot), y, x);
    RemMembers(Entries(t.ooes, slot), y, x);
  }

  /** A contest loses no entry that can be replayed, except at the slot it settles. */
  lemma {:induction false} AdvanceHolds(t: Tables, bound: Option<Said>, issuer: string, slot: Slot, order: seq<Said>,
                                        h: Slot, x: Said)
    requires Lists(t) && Replayable(t, bound, issuer, x) && Waits(t, h, x)
    ensures var (t', winner) := Advance(t, bound, issuer, slot, order);
            Waits(t', h, x) || (winner.Some? && winner.value in t.evts && SlotOf(t.evts[winner.value]) == h)
    decreases |order|
  {
    if order != [] {
      var y := order[0];
      if !Replayable(t, bound, issuer, y) {
        ClearedHolds(t, slot, y, h, x);
        ClearedLists(t, slot, y);
        AdvanceHolds(Cleared(t, slot, y), bound, issuer, slot, order[1..], h, x);
      } else if !Ripe(t, bound, issuer, y) {
        AdvanceHolds(t, bound, issuer, slot, order[1..], h, x);
      }
    }
  }

  lemma CommitSame(t: Tables, e: Serder)
    requires e.said in t.evts && t.evts[e.said] == e
    ensures Commit(t, e).evts == t.evts && Commit(t, e).ancs == t.ancs
  {
  }

  lemma ContestSame(w: World, t: Tables, regk: Said, issuer: string)
    requires Bodies(w, t) && Lists(t)
    ensures Contest(t, regk, issuer).0.evts == t.evts && Contest(t, regk, issuer).0.ancs == t.ancs
  {
    var slot := NextOf(t, regk);
    var mid := AdvanceSteps(t, Some(regk), issuer, slot, ByWinner(t.ancs, set s | s in Entries(t.ooes, slot)));
    var winner := Contest(t, regk, issuer).1;
    if winner.Some? {
      StoredIsGenuine(w, t, winner.value);
      CommitSame(mid, t.evts[winner.value]);
    }
  }

  /** What is known of the tables while the chain c is being delivered. */
  ghost predicate Tracks(w: World, t: Tables, c: seq<Serder>, issuer: string, seen: set<nat>) {
    IsChain(w, c, issuer) && Bodies(w, t) && Log(w, t) && OnlyChain(w, t, c, seen)
  }

  lemma ChainReplays(w: World, t: Tables, c: seq<Serder>, issuer: string, seen: set<nat>, j: nat)
    requires Tracks(w, t, c, issuer, seen) && j < |c| && c[j].said in t.evts
    ensures Replayable(t, Some(c[0].said), issuer, c[j].said)
  {
    ChainValid(w, t, c, issuer, seen, j);
  }

  lemma SlotLogged(w: World, t: Tables, c: seq<Serder>, issuer: string, seen: set<nat>, j: nat)
    requires Tracks(w, t, c, issuer, seen) && j < |c| && SlotOf(c[j]) in t.tels
    ensures InLog(t, c[j])
  {
    LoggedIsChain(w, t, c, issuer, seen, j);
  }

  lemma AdvanceSettles(t: Tables, bound: Option<Said>, issuer: string, slot: Slot, order: seq<Said>, h: Slot, x: Said)
    requires Lists(t) && Replayable(t, bound, issuer, x) && Waits(t, h, x)
    ensures var t' := Advance(t, bound, issuer, slot, order).0;
            Waits(t', h, x) || h in t'.tels
  {
    AdvanceHolds(t, bound, issuer, slot, order, h, x);
    var mid := AdvanceSteps(t, bound, issuer, slot, order);
  }

  lemma ContestHolds(w: World, t: Tables, c: seq<Serder>, issuer: string, seen: set<nat>, j: nat)
    requires Tracks(w, t, c, issuer, seen) && Lists(t) && j < |c| && Held(t, c[j]) && c[j].said in t.evts
    requires Tracks(w, Contest(t, c[0].said, issuer).0, c, issuer, seen)
    requires Grows(t, Contest(t, c[0].said, issuer).0)
    ensures Held(Contest(t, c[0].said, issuer).0, c[j])
  {
    var k := c[0].said;
    var t' := Contest(t, k, issuer).0;
    if !InLog(t, c[j]) {
      var slot := NextOf(t, k);
      ChainReplays(w, t, c, issuer, seen, j);
      AdvanceSettles(t, Some(k), issuer, slot, ByWinner(t.ancs, set s | s in Entries(t.ooes, slot)), SlotOf(c[j]), c[j].said);
      if SlotOf(c[j]) in t'.tels {
        SlotLogged(w, t', c, issuer, seen, j);
      }
    }
  }

  lemma {:induction false} DrainHolds(w: World, t: Tables, c: seq<Serder>, issuer: string, seen: set<nat>, j: nat,
                                      pending: set<Said>)
    requires IsChain(w, c, issuer) && OnlyChain(w, t, c, seen) && Steady(w, t, pending, Some(NextOf(t, c[0].said)))
    requires j < |c| && Held(t, c[j]) && c[j].said in t.evts
    ensures var t' := Drain(t, c[0].said, issuer);
            Held(t', c[j]) && t'.evts == t.evts && t'.ancs == t.ancs
    decreases |QueueSlots(t)|
  {
    var k := c[0].said;
    if Entries(t.ooes, NextOf(t, k)) != [] {
      var (t', winner) := Contest(t, k, issuer);
      ContestSame(w, t, k, issuer);
      ContestKeeps(w, t, k, issuer, pending);
      ContestHolds(w, t, c, issuer, seen, j);
      if winner.Some? && |QueueSlots(t')| < |QueueSlots(t)| {
        DrainHolds(w, t', c, issuer, seen, j, pending);
      }
    }
  }

  // ----- delivering one event ----------------------------------------------------------------

  lemma StoredHolds(t: Tables, kel: Kel, e: Serder, f: Serder)
    requires Held(t, f)
    ensures Held(Stored(t, kel, e), f)
  {
  }

  /** Placing an event holds it and every event of another slot. */
  lemma PlacedHolds(t: Tables, e: Serder, prior: Option<Serder>, f: Serder)
    requires SlotOf(e) !in t.tels && (f == e || (SlotOf(f) != SlotOf(e) && Held(t, f)))
    ensures Held(Placed(t, e, prior).t, f)
  {
  }

  lemma PlacedSame(t: Tables, e: Serder, prior: Option<Serder>)
    requires e.said in t.evts && t.evts[e.said] == e
    ensures Placed(t, e, prior).t.evts == t.evts && Placed(t, e, prior).t.ancs == t.ancs
  {
  }

  lemma StoredTracks(w: World, t: Tables, kel: Kel, c: seq<Serder>, issuer: string, seen: set<nat>, i: nat)
    requires IsChain(w, c, issuer) && OnlyChain(w, t, c, seen) && i < |c|
    ensures OnlyChain(w, Stored(t, kel, c[i]), c, seen + {i})
  {
  }

  lemma ChainSlots(w: World, c: seq<Serder>, issuer: string, i: nat, j: nat)
    requires IsChain(w, c, issuer) && i < |c| && j < |c| && i != j
    ensures SlotOf(c[i]) != SlotOf(c[j]) && c[i].said != c[j].said
  {
    assert SlotOf(c[i]) == Slot(c[0].said, i) && SlotOf(c[j]) == Slot(c[0].said, j);
  }

  lemma LogIsBacked(w: World, t: Tables, slot: Slot)
    requires Log(w, t) && slot in t.tels
    ensures t.tels[slot] in t.evts && t.tels[slot] in t.ancs
  {
    assert Entry(w, t, slot);
  }

  lemma TakenHolds(w: World, t: Tables, kel: Kel, c: seq<Serder>, issuer: string, seen: set<nat>, i: nat, j: nat,
                   pending: set<Said>)
    requires IsChain(w, c, issuer) && OnlyChain(w, t, c, seen) && Steady(w, t, pending, None) && Sound(w, kel)
    requires i < |c| && j < |c| && (i == j || (Held(t, c[j]) && c[j].said in t.evts))
    requires var v := Validate(t, Some(c[0].said), issuer, c[i]); v.Ok? && v.value.existing.None?
    requires SlotOf(c[i]) !in t.tels
    ensures var t' := Process(t, Some(c[0].said), issuer, kel, c[i]).value.t;
            Held(t', c[j]) && t'.evts == Stored(t, kel, c[i]).evts && t'.ancs == Stored(t, kel, c[i]).ancs
  {
    var e := c[i];
    var prior := Validate(t, Some(c[0].said), issuer, e).value.prior;
    var t1 := Stored(t, kel, e);
    var o := Placed(t1, e, prior);
    if i != j {
      ChainSlots(w, c, issuer, i, j);
      StoredHolds(t, kel, e, c[j]);
    }
    PlacedHolds(t1, e, prior, c[j]);
    PlacedSame(t1, e, prior);
    if o.done {
      PlacedOpens(w, t, Some(c[0].said), issuer, kel, e, pending);
      StoredTracks(w, t, kel, c, issuer, seen, i);
      DrainHolds(w, o.t, c, issuer, seen + {i}, j, pending - {e.said});
    }
  }

  lemma StoredFacts(t: Tables, kel: Kel, e: Serder)
    ensures e.said in Stored(t, kel, e).evts && t.evts.Keys <= Stored(t, kel, e).evts.Keys
    ensures Discovered(kel, e).Some? ==> e.said in Stored(t, kel, e).ancs
  {
  }

  lemma ProcessKnown(w: World, t: Tables, kel: Kel, c: seq<Serder>, issuer: string, seen: set<nat>, i: nat)
    requires Tracks(w, t, c, issuer, seen) && i < |c| && SlotOf(c[i]) in t.tels
    ensures Process(t, Some(c[0].said), issuer, kel, c[i]) == Ok(Outcome(t, true))
    ensures InLog(t, c[i]) && i in seen && c[i].said in t.evts && c[i].said in t.ancs
  {
    ChainValid(w, t, c, issuer, seen, i);
    ValidFree(w, t, Some(c[0].said), issuer, c[i]);
    LoggedIsChain(w, t, c, issuer, seen, i);
    LogIsBacked(w, t, SlotOf(c[i]));
  }

  lemma ProcessNew(w: World, t: Tables, kel: Kel, c: seq<Serder>, issuer: string, seen: set<nat>, i: nat)
    requires Tracks(w, t, c, issuer, seen) && i < |c| && SlotOf(c[i]) !in t.tels
    ensures var v := Validate(t, Some(c[0].said), issuer, c[i]); v.Ok? && v.value.existing.None?
    ensures Process(t, Some(c[0].said), issuer, kel, c[i]).Ok?
  {
    ChainValid(w, t, c, issuer, seen, i);
    ValidFree(w, t, Some(c[0].said), issuer, c[i]);
  }

  /** A delivered event of the chain is never refused; it and all others stay held. */
  lemma ProcessHolds(w: World, t: Tables, kel: Kel, c: seq<Serder>, issuer: string, seen: set<nat>, i: nat, j: nat,
                     pending: set<Said>) returns (o: Outcome)
    requires IsChain(w, c, issuer) && OnlyChain(w, t, c, seen) && Steady(w, t, pending, None) && Sound(w, kel)
    requires i < |c| && j < |c| && (i == j || (Held(t, c[j]) && c[j].said in t.evts))
    ensures Process(t, Some(c[0].said), issuer, kel, c[i]) == Ok(o)
    ensures Held(o.t, c[j]) && c[j].said in o.t.evts && OnlyChain(w, o.t, c, seen + {i})
    ensures Discovered(kel, c[i]).Some? ==> c[i].said in o.t.ancs
  {
    if SlotOf(c[i]) in t.tels {
      o := Outcome(t, true);
      ProcessKnown(w, t, kel, c, issuer, seen, i);
    } else {
      ProcessNew(w, t, kel, c, issuer, seen, i);
      o := Process(t, Some(c[0].said), issuer, kel, c[i]).value;
      TakenHolds(w, t, kel, c, issuer, seen, i, j, pending);
      StoredTracks(w, t, kel, c, issuer, seen, i);
      StoredFacts(t, kel, c[i]);
      SameTracks(w, Stored(t, kel, c[i]), o.t, c, seen + {i});
    }
  }

  lemma SameTracks(w: World, t: Tables, t': Tables, c: seq<Serder>, seen: set<nat>)
    requires c != [] && OnlyChain(w, t, c, seen) && t'.evts == t.evts
    ensures OnlyChain(w, t', c, seen)
  {
  }

  // ----- runs of deliveries ------------------------------------------------------------------

  /** The delivered events of the chain are all held, and nothing else is stored. */
  ghost predicate Delivered(w: World, t: Tables, c: seq<Serder>, issuer: string, seen: set<nat>, pending: set<Said>) {
    IsChain(w, c, issuer) && OnlyChain(w, t, c, seen) && Steady(w, t, pending, None) && AllHeld(t, c, seen)
  }

  ghost predicate AllHeld(t: Tables, c: seq<Serder>, seen: set<nat>) {
    forall i | i in seen :: i < |c| && Held(t, c[i]) && c[i].said in t.evts
  }

  lemma ProcessHoldsAll(w: World, t: Tables, kel: Kel, c: seq<Serder>, issuer: string, seen: set<nat>, i: nat,
                        pending: set<Said>, o: Outcome)
    requires IsChain(w, c, issuer) && OnlyChain(w, t, c, seen) && Steady(w, t, pending, None) && AllHeld(t, c, seen)
    requires i < |c| && Sound(w, kel) && Process(t, Some(c[0].said), issuer, kel, c[i]) == Ok(o)
    ensures AllHeld(o.t, c, seen + {i})
  {
    forall j | j in seen + {i} ensures j < |c| && Held(o.t, c[j]) && c[j].said in o.t.evts {
      var _ := ProcessHolds(w, t, kel, c, issuer, seen, i, j, pending);
    }
  }

  lemma ProcessDelivers(w: World, t: Tables, kel: Kel, c: seq<Serder>, issuer: string, seen: set<nat>, i: nat,
                        pending: set<Said>) returns (o: Outcome)
    requires Delivered(w, t, c, issuer, seen, pending) && i < |c| && Sound(w, kel)
    ensures Process(t, Some(c[0].said), issuer, kel, c[i]) == Ok(o)
    ensures Delivered(w, o.t, c, issuer, seen + {i}, pending - {c[i].said}) && Grows(t, o.t)
    ensures Discovered(kel, c[i]).Some? ==> c[i].said in o.t.ancs
  {
    o := ProcessHolds(w, t, kel, c, issuer, seen, i, i, pending);
    ProcessHoldsAll(w, t, kel, c, issuer, seen, i, pending, o);
    ProcessKeeps(w, t, Some(c[0].said), issuer, kel, c[i], pending);
  }

  // ----- where the events end up -------------------------------------------------------------

  /** Every delivered event is anchored. */
  ghost predicate AllAnchored(t: Tables, c: seq<Serder>, seen: set<nat>) {
    forall i | i in seen && i < |c| :: c[i].said in t.ancs
  }

  /** The log holds exactly the first n events of the chain, the last of them is the head, and every later event
      that has arrived is queued. */
  ghost predicate LogIsPrefix(t: Tables, c: seq<Serder>, n: nat, seen: set<nat>) {
    && n <= |c| && c != []
    && (forall sn: nat :: Slot(c[0].said, sn) in t.tels <==> sn < n)
    && (forall i | 0 <= i < n :: InLog(t, c[i]))
    && (n > 0 ==> c[0].said in t.heads && t.heads[c[0].said] == c[n - 1].said)
    && (forall i | i in seen && n <= i < |c| :: c[i].said in Entries(t.ooes, SlotOf(c[i])))
  }

  lemma AnchoredIsPlaced(t: Tables, c: seq<Serder>, seen: set<nat>, i: nat)
    requires Waiting(t, {}) && AllHeld(t, c, seen) && i in seen && c[i].said in t.ancs
    ensures InLog(t, c[i]) || c[i].said in Entries(t.ooes, SlotOf(c[i]))
  {
  }

  lemma QuietAt(t: Tables, slot: Slot)
    requires Quiet(t, None) && Entries(t.ooes, slot) != []
    ensures slot.sn >= 1 && Slot(slot.regk, slot.sn - 1) !in t.tels
  {
  }

  lemma {:induction false} PrefixLogged(w: World, t: Tables, c: seq<Serder>, issuer: string, seen: set<nat>, i: nat)
    requires Delivered(w, t, c, issuer, seen, {}) && AllAnchored(t, c, seen)
    requires i < |c| && forall j | 0 <= j <= i :: j in seen
    ensures InLog(t, c[i])
    decreases i
  {
    if i > 0 {
      PrefixLogged(w, t, c, issuer, seen, i - 1);
    }
    AnchoredIsPlaced(t, c, seen, i);
    if !InLog(t, c[i]) {
      QuietAt(t, SlotOf(c[i]));
    }
  }

  /** Nothing is logged that has not arrived, and nothing beyond a gap. */
  lemma LoggedArrived(w: World, t: Tables, c: seq<Serder>, issuer: string, seen: set<nat>, slot: Slot, n: nat)
    requires Tracks(w, t, c, issuer, seen) && slot in t.tels && slot.regk == c[0].said && n !in seen
    ensures slot.sn < n
  {
    assert Entry(w, t, slot);
    assert c[slot.sn].said == t.tels[slot];
    if n <= slot.sn {
      BelowLogged(w, t, slot.regk, slot.sn, n);
      LoggedIsChain(w, t, c, issuer, seen, n);
    }
  }

  lemma PrefixSlots(w: World, t: Tables, c: seq<Serder>, issuer: string, seen: set<nat>, n: nat)
    requires Tracks(w, t, c, issuer, seen) && n <= |c| && n !in seen && forall i | 0 <= i < n :: InLog(t, c[i])
    ensures forall sn: nat :: Slot(c[0].said, sn) in t.tels <==> sn < n
  {
    forall sn: nat | Slot(c[0].said, sn) in t.tels ensures sn < n {
      LoggedArrived(w, t, c, issuer, seen, Slot(c[0].said, sn), n);
    }
    forall sn: nat | sn < n ensures Slot(c[0].said, sn) in t.tels {
      assert SlotOf(c[sn]) == Slot(c[0].said, sn);
    }
  }

  lemma PrefixHead(w: World, t: Tables, c: seq<Serder>, issuer: string, n: nat)
    requires IsChain(w, c, issuer) && Bodies(w, t) && Log(w, t) && Heads(w, t) && 0 < n <= |c| && InLog(t, c[n - 1])
    requires forall sn: nat :: Slot(c[0].said, sn) in t.tels <==> sn < n
    ensures c[0].said in t.heads && t.heads[c[0].said] == c[n - 1].said
  {
    LogIsGapFree(w, t, c[0].said);
    assert SlotOf(c[n - 1]) == Slot(c[0].said, n - 1);
    assert HeadSn(t, c[0].said) == n - 1 by {
      assert Slot(c[0].said, n) !in t.tels;
    }
  }

  lemma PrefixExact(w: World, t: Tables, c: seq<Serder>, issuer: string, seen: set<nat>, n: nat)
    requires Delivered(w, t, c, issuer, seen, {}) && AllAnchored(t, c, seen)
    requires n <= |c| && n !in seen && forall i | 0 <= i < n :: i in seen
    ensures LogIsPrefix(t, c, n, seen)
  {
    forall i | 0 <= i < n ensures InLog(t, c[i]) {
      PrefixLogged(w, t, c, issuer, seen, i);
    }
    PrefixSlots(w, t, c, issuer, seen, n);
    if n > 0 {
      PrefixHead(w, t, c, issuer, n);
    }
    forall i | i in seen && n <= i < |c| ensures c[i].said in Entries(t.ooes, SlotOf(c[i])) {
      AnchoredIsPlaced(t, c, seen, i);
    }
  }

  // ----- late seals --------------------------------------------------------------------------

  /** The event can be replayed as what is stored under its SAID. */
  predicate Replays(t: Tables, bound: Option<Said>, issuer: string, s: Said) {
    Replayable(t, bound, issuer, s) && t.evts[s].said == s
  }

  predicate Anchorable(t: Tables, kel: Kel, s: Said) {
    s in t.evts && Discovered(kel, t.evts[s]).Some?
  }

  lemma DiscoverFinds(t: Tables, bound: Option<Said>, issuer: string, kel: Kel, s: Said)
    requires Replays(t, bound, issuer, s)
    ensures var t' := Discover(t, kel, t.evts[s]);
            && t' == t.(ancs := t'.ancs) && t.ancs.Keys <= t'.ancs.Keys
            && (Anchorable(t, kel, s) ==> s in t'.ancs.Keys)
            && (forall x :: Replays(t', bound, issuer, x) <==> Replays(t, bound, issuer, x))
            && (forall x :: Anchorable(t', kel, x) <==> Anchorable(t, kel, x))
  {
  }

  /** Gathering a slot's events changes nothing but their anchors, when none of them has to be dropped. */
  lemma {:induction false} GatherAnchors(t: Tables, bound: Option<Said>, issuer: string, kel: Kel, slot: Slot,
                                         saids: seq<Said>, usable: map<Said, Serder>)
    requires forall s | s in saids :: Replays(t, bound, issuer, s)
    ensures var (t', usable') := Gather(t, bound, issuer, kel, slot, saids, usable);
            && t' == t.(ancs := t'.ancs) && t.ancs.Keys <= t'.ancs.Keys
            && forall s | s in saids && Anchorable(t, kel, s) :: s in t'.ancs.Keys
    decreases |saids|
  {
    if saids != [] {
      var s := saids[0];
      assert Replays(t, bound, issuer, s);
      var t1 := Discover(t, kel, t.evts[s]);
      DiscoverFinds(t, bound, issuer, kel, s);
      GatherAnchors(t1, bound, issuer, kel, slot, saids[1..], usable[s := t.evts[s]]);
    }
  }

  lemma GatheredHolds(t: Tables, t': Tables, c: seq<Serder>, seen: set<nat>)
    requires AllHeld(t, c, seen) && t' == t.(ancs := t'.ancs)
    ensures AllHeld(t', c, seen)
  {
  }

  lemma RetriedDelivers(w: World, t: Tables, kel: Kel, c: seq<Serder>, issuer: string, seen: set<nat>,
                        slot: Slot, i: nat, said: Said, pending: set<Said>)
    requires Delivered(w, t, c, issuer, seen, pending) && Sound(w, kel) && i in seen && i < |c|
    ensures Delivered(w, Retried(t, Some(c[0].said), issuer, kel, slot, c[i], said), c, issuer, seen, pending - {c[i].said})
    ensures Grows(t, Retried(t, Some(c[0].said), issuer, kel, slot, c[i], said))
  {
    var o := ProcessDelivers(w, t, kel, c, issuer, seen, i, pending);
    SeenAgain(seen, i);
  }

  lemma SeenAgain(seen: set<nat>, i: nat)
    requires i in seen
    ensures seen + {i} == seen
  {
  }

  /** The usable events are delivered events of the chain. */
  ghost predicate FromChain(c: seq<Serder>, seen: set<nat>, usable: map<Said, Serder>) {
    forall s | s in usable :: usable[s].sn in seen && usable[s].sn < |c| && usable[s] == c[usable[s].sn]
  }

  lemma {:induction false} RetryDelivers(w: World, t: Tables, kel: Kel, c: seq<Serder>, issuer: string, seen: set<nat>,
                                         slot: Slot, usable: map<Said, Serder>, order: seq<Said>, pending: set<Said>)
    requires Delivered(w, t, c, issuer, seen, pending) && Sound(w, kel) && FromChain(c, seen, usable)
    requires forall s | s in order :: s in usable
    ensures var t' := Retry(t, Some(c[0].said), issuer, kel, slot, usable, order);
            AllHeld(t', c, seen) && OnlyChain(w, t', c, seen) && t.ancs.Keys <= t'.ancs.Keys
    decreases |order|
  {
    if order != [] {
      var e := usable[order[0]];
      RetriedDelivers(w, t, kel, c, issuer, seen, slot, e.sn, order[0], pending);
      RetryDelivers(w, Retried(t, Some(c[0].said), issuer, kel, slot, e, order[0]), kel, c, issuer, seen, slot, usable,
                    order[1..], pending - {e.said});
    }
  }

  ghost predicate FindsAll(kel: Kel, c: seq<Serder>, seen: set<nat>) {
    forall i | i in seen && i < |c| :: Discovered(kel, c[i]).Some?
  }

  lemma StoredReplays(w: World, t: Tables, c: seq<Serder>, issuer: string, seen: set<nat>, s: Said)
    requires Tracks(w, t, c, issuer, seen) && s in t.evts && RegkOf(w.doc(s)) == c[0].said
    ensures Replays(t, Some(c[0].said), issuer, s) && w.doc(s).sn in seen && t.evts[s] == c[w.doc(s).sn]
  {
    var j := w.doc(s).sn;
    assert c[j].said == s;
    ChainReplays(w, t, c, issuer, seen, j);
    StoredIsGenuine(w, t, s);
  }

  lemma UsableFromChain(w: World, t: Tables, c: seq<Serder>, issuer: string, seen: set<nat>, slot: Slot,
                        usable: map<Said, Serder>)
    requires IsChain(w, c, issuer) && OnlyChain(w, t, c, seen) && Usable(w, t, slot, usable) && slot.regk == c[0].said
    ensures FromChain(c, seen, usable)
  {
  }

  /** The entries of an escrow list are stored events of its slot. */
  ghost predicate AtSlot(w: World, t: Tables, slot: Slot, saids: seq<Said>) {
    forall s | s in saids :: s in t.evts && SlotOf(w.doc(s)) == slot
  }

  ghost predicate AllIn(saids: seq<Said>, known: set<Said>) {
    forall s | s in saids :: s in known
  }

  lemma SlotFinds(w: World, t: Tables, kel: Kel, c: seq<Serder>, issuer: string, seen: set<nat>, slot: Slot,
                  saids: seq<Said>, t': Tables, usable: map<Said, Serder>)
    requires Tracks(w, t, c, issuer, seen) && AtSlot(w, t, slot, saids) && slot.regk == c[0].said
    requires (t', usable) == Gather(t, Some(c[0].said), issuer, kel, slot, saids, map[])
    ensures t' == t.(ancs := t'.ancs) && (FindsAll(kel, c, seen) ==> AllIn(saids, t'.ancs.Keys))
  {
    forall s | s in saids
      ensures Replays(t, Some(c[0].said), issuer, s) && (FindsAll(kel, c, seen) ==> Anchorable(t, kel, s))
    {
      StoredReplays(w, t, c, issuer, seen, s);
    }
    GatherAnchors(t, Some(c[0].said), issuer, kel, slot, saids, map[]);
  }

  lemma GatheredDelivers(w: World, t: Tables, t': Tables, c: seq<Serder>, issuer: string, seen: set<nat>, slot: Slot,
                         usable: map<Said, Serder>)
    requires IsChain(w, c, issuer) && OnlyChain(w, t, c, seen) && AllHeld(t, c, seen) && t' == t.(ancs := t'.ancs)
    requires Steady(w, t', usable.Keys, None) && Usable(w, t', slot, usable) && slot.regk == c[0].said
    ensures Delivered(w, t', c, issuer, seen, usable.Keys) && FromChain(c, seen, usable)
  {
    GatheredHolds(t, t', c, seen);
    SameTracks(w, t, t', c, seen);
    UsableFromChain(w, t', c, issuer, seen, slot, usable);
  }

  lemma SlotGathers(w: World, t: Tables, kel: Kel, c: seq<Serder>, issuer: string, seen: set<nat>, slot: Slot,
                    saids: seq<Said>, t': Tables, usable: map<Said, Serder>)
    requires Delivered(w, t, c, issuer, seen, {}) && Sound(w, kel) && AtSlot(w, t, slot, saids) && slot.regk == c[0].said
    requires t' == Gather(t, Some(c[0].said), issuer, kel, slot, saids, map[]).0
    requires usable == Gather(t, Some(c[0].said), issuer, kel, slot, saids, map[]).1
    ensures Delivered(w, t', c, issuer, seen, usable.Keys) && FromChain(c, seen, usable)
    ensures FindsAll(kel, c, seen) ==> AllIn(saids, t'.ancs.Keys)
  {
    SlotFinds(w, t, kel, c, issuer, seen, slot, saids, t', usable);
    GatherSteady(w, t, Some(c[0].said), issuer, kel, slot, saids, t', usable);
    GatheredDelivers(w, t, t', c, issuer, seen, slot, usable);
  }

  lemma RetryGrows(w: World, t: Tables, kel: Kel, c: seq<Serder>, issuer: string, seen: set<nat>, slot: Slot,
                   usable: map<Said, Serder>, order: seq<Said>)
    requires Delivered(w, t, c, issuer, seen, usable.Keys) && Sound(w, kel) && FromChain(c, seen, usable)
    requires forall s :: s in order <==> s in usable
    ensures var t' := Retry(t, Some(c[0].said), issuer, kel, slot, usable, order);
            AllHeld(t', c, seen) && OnlyChain(w, t', c, seen) && t.ancs.Keys <= t'.ancs.Keys
  {
    RetryDelivers(w, t, kel, c, issuer, seen, slot, usable, order, usable.Keys);
  }

  /** Retrying a slot loses none of the delivered events, and finds the seals of all that waits there if it can. */
  lemma RetrySlotDelivers(w: World, t: Tables, kel: Kel, c: seq<Serder>, issuer: string, seen: set<nat>, slot: Slot,
                          saids: seq<Said>)
    requires Delivered(w, t, c, issuer, seen, {}) && Sound(w, kel)
    requires AtSlot(w, t, slot, saids) && slot.regk == c[0].said
    ensures var t' := RetrySlot(t, c[0].said, issuer, kel, slot, saids);
            && Delivered(w, t', c, issuer, seen, {}) && Grows(t, t')
            && (FindsAll(kel, c, seen) ==> AllIn(saids, t'.ancs.Keys))
  {
    var k := c[0].said;
    var (t1, usable) := Gather(t, Some(k), issuer, kel, slot, saids, map[]);
    SlotGathers(w, t, kel, c, issuer, seen, slot, saids, t1, usable);
    RetryGrows(w, t1, kel, c, issuer, seen, slot, usable, ByWinner(t1.ancs, usable.Keys));
    RetrySlotKeeps(w, t, k, issuer, kel, slot, saids);
  }

  lemma {:induction false} RetryAllDelivers(w: World, t: Tables, kel: Kel, c: seq<Serder>, issuer: string, seen: set<nat>,
                                            maes: map<Slot, seq<Said>>, sns: seq<nat>)
    requires Delivered(w, t, c, issuer, seen, {}) && Sound(w, kel)
    requires forall sn: nat :: AtSlot(w, t, Slot(c[0].said, sn), Entries(maes, Slot(c[0].said, sn)))
    ensures var t' := RetryAll(t, c[0].said, issuer, kel, maes, sns);
            && Delivered(w, t', c, issuer, seen, {}) && Grows(t, t')
            && (FindsAll(kel, c, seen) ==>
                  forall sn: nat | sn in sns :: AllIn(Entries(maes, Slot(c[0].said, sn)), t'.ancs.Keys))
    decreases |sns|
  {
    if sns == [] {
      GrowsSelf(t);
    } else {
      var slot := Slot(c[0].said, sns[0]);
      var t1 := RetrySlot(t, c[0].said, issuer, kel, slot, Entries(maes, slot));
      RetrySlotDelivers(w, t, kel, c, issuer, seen, slot, Entries(maes, slot));
      AtSlotsGrow(w, t, t1, c[0].said, maes);
      RetryAllDelivers(w, t1, kel, c, issuer, seen, maes, sns[1..]);
      GrowsTrans(t, t1, RetryAll(t, c[0].said, issuer, kel, maes, sns));
    }
  }

  lemma AtSlotsGrow(w: World, t: Tables, t': Tables, regk: Said, maes: map<Slot, seq<Said>>)
    requires Grows(t, t') && forall sn: nat :: AtSlot(w, t, Slot(regk, sn), Entries(maes, Slot(regk, sn)))
    ensures forall sn: nat :: AtSlot(w, t', Slot(regk, sn), Entries(maes, Slot(regk, sn)))
  {
    forall sn: nat ensures AtSlot(w, t', Slot(regk, sn), Entries(maes, Slot(regk, sn))) {
      assert AtSlot(w, t, Slot(regk, sn), Entries(maes, Slot(regk, sn)));
      assert t.evts.Keys <= t'.evts.Keys;
    }
  }

  /** An event held after the sweep had its seal already, or waited in the escrow the sweep went through. */
  lemma HeldIsAnchored(w: World, t: Tables, t': Tables, regk: Said, e: Serder)
    requires Log(w, t) && Queued(w, t) && Held(t, e) && RegkOf(e) == regk && t.ancs.Keys <= t'.ancs.Keys
    requires forall sn: nat | sn in EscrowedSns(t.maes, regk) :: AllIn(Entries(t.maes, Slot(regk, sn)), t'.ancs.Keys)
    ensures e.said in t'.ancs.Keys
  {
    if InLog(t, e) {
      LogIsBacked(w, t, SlotOf(e));
      assert e.said in t.ancs.Keys;
    } else if e.said in Entries(t.ooes, SlotOf(e)) {
      assert e.said in t.ancs.Keys;
    } else {
      assert Entries(t.maes, Slot(regk, e.sn)) != [];
      assert e.sn in EscrowedSns(t.maes, regk);
      assert AllIn(Entries(t.maes, Slot(regk, e.sn)), t'.ancs.Keys);
    }
  }

  lemma {:induction false} DrainSame(w: World, t: Tables, regk: Said, issuer: string, pending: set<Said>)
    requires Steady(w, t, pending, Some(NextOf(t, regk)))
    ensures Drain(t, regk, issuer).evts == t.evts && Drain(t, regk, issuer).ancs == t.ancs
    decreases |QueueSlots(t)|
  {
    if Entries(t.ooes, NextOf(t, regk)) != [] {
      var (t', winner) := Contest(t, regk, issuer);
      ContestSame(w, t, regk, issuer);
      ContestKeeps(w, t, regk, issuer, pending);
      if winner.Some? && |QueueSlots(t')| < |QueueSlots(t)| {
        DrainSame(w, t', regk, issuer, pending);
      }
    }
  }

  lemma DrainDelivers(w: World, t: Tables, c: seq<Serder>, issuer: string, seen: set<nat>)
    requires Delivered(w, t, c, issuer, seen, {})
    ensures var t' := Drain(t, c[0].said, issuer);
            Delivered(w, t', c, issuer, seen, {}) && t'.ancs == t.ancs
  {
    var t' := Drain(t, c[0].said, issuer);
    QuietWeaker(t, Some(NextOf(t, c[0].said)));
    DrainKeeps(w, t, c[0].said, issuer, {});
    DrainSame(w, t, c[0].said, issuer, {});
    SameTracks(w, t, t', c, seen);
    forall i | i in seen ensures i < |c| && Held(t', c[i]) && c[i].said in t'.evts {
      DrainHolds(w, t, c, issuer, seen, i, {});
    }
  }

  /** A pass over the escrows loses none of the delivered events, and anchors them all if it can. */
  lemma SweepDelivers(w: World, t: Tables, kel: Kel, c: seq<Serder>, issuer: string, seen: set<nat>)
    requires Delivered(w, t, c, issuer, seen, {}) && Sound(w, kel)
    ensures var t' := ProcessEscrows(t, Some(c[0].said), issuer, kel);
            Delivered(w, t', c, issuer, seen, {}) && (FindsAll(kel, c, seen) ==> AllAnchored(t', c, seen))
  {
    var k := c[0].said;
    var sns := EscrowedSns(t.maes, k);
    var t1 := RetryAll(t, k, issuer, kel, t.maes, sns);
    forall sn: nat ensures AtSlot(w, t, Slot(k, sn), Entries(t.maes, Slot(k, sn))) {
      MissingAtSlot(w, t, Slot(k, sn));
    }
    RetryAllDelivers(w, t, kel, c, issuer, seen, t.maes, sns);
    DrainDelivers(w, t1, c, issuer, seen);
    if FindsAll(kel, c, seen) {
      forall i | i in seen && i < |c| ensures c[i].said in Drain(t1, k, issuer).ancs {
        HeldIsAnchored(w, t, t1, k, c[i]);
      }
    }
  }

  lemma MissingAtSlot(w: World, t: Tables, slot: Slot)
    requires Missing(w, t)
    ensures AtSlot(w, t, slot, Entries(t.maes, slot))
  {
    forall s | s in Entries(t.maes, slot) ensures s in t.evts && SlotOf(w.doc(s)) == slot {
      assert RegistryRules.Escrowed(w, t, slot, s);
    }
  }
}
