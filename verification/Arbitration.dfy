/** Races between events for one place in the log: how the missing-anchor escrow settles them, and how the queue does. */
module Arbitration {
  import opened Outcomes
  import opened KeyOrder
  import opened RegistryTables
  import opened RegistryStore
  import opened RegistryRules
  import opened RegistryProtocol
  import opened RegistryInvariants

  /** The rival with the earliest anchor, by number, digest and SAID; none if no rival has an anchor. */
  function First(ancs: map<Said, Seal>, rivals: set<Said>): Option<Said> {
    WinnersStrictTotal(ancs);
    if rivals * ancs.Keys == {} then None else Some(Least(Winners(ancs), rivals * ancs.Keys))
  }

  /** The first of some rivals: its seal comes before those of all others that have one. */
  lemma FirstExact(ancs: map<Said, Seal>, rivals: set<Said>, s: Said)
    ensures First(ancs, rivals) == Some(s) <==>
            s in rivals && s in ancs && forall x | x in rivals && x in ancs && x != s :: Sooner(ancs[s], s, ancs[x], x)
  {
    FirstWins(ancs, rivals, s);
    if s in ancs {
      forall x | x in ancs ensures WinnerLess(ancs, s, x) <==> Sooner(ancs[s], s, ancs[x], x) {
        WinnerLessExact(ancs, s, x);
      }
    }
  }

  lemma FirstWins(ancs: map<Said, Seal>, rivals: set<Said>, s: Said)
    ensures First(ancs, rivals) == Some(s) <==>
            s in rivals && s in ancs && forall x | x in rivals && x in ancs && x != s :: WinnerLess(ancs, s, x)
  {
    WinnersStrictTotal(ancs);
    var less, anchored := Winners(ancs), rivals * ancs.Keys;
    if s in anchored && forall x | x in anchored && x != s :: WinnerLess(ancs, s, x) {
      var m := Least(less, anchored);
      assert m != s ==> WinnerLess(ancs, m, s) && WinnerLess(ancs, s, m);
      if m != s { WinnerAsymmetric(ancs, s, m); }
    }
    forall x | x in anchored && IsLeast(less, s, anchored) && x != s ensures WinnerLess(ancs, s, x) {
      assert less(s, x);
    }
  }

  /** No rival is first exactly when none has an anchor. */
  lemma NoFirst(ancs: map<Said, Seal>, rivals: set<Said>)
    ensures First(ancs, rivals).None? <==> forall x | x in rivals :: x !in ancs
  {
    assert forall x :: x in rivals * ancs.Keys <==> x in rivals && x in ancs;
  }

  /** In winner order the first comes first. */
  lemma FirstInOrder(ancs: map<Said, Seal>, rivals: set<Said>)
    ensures var order := ByWinner(ancs, rivals);
            First(ancs, rivals) == if order != [] && order[0] in ancs then Some(order[0]) else None
  {
    var order := ByWinner(ancs, rivals);
    forall x | x in rivals && x != order[0] ensures WinnerLess(ancs, order[0], x) {
      var j :| 0 <= j < |order| && order[j] == x;
      assert Winners(ancs)(order[0], order[j]);
    }
    if order != [] && order[0] in ancs {
      FirstWins(ancs, rivals, order[0]);
    } else {
      NoFirst(ancs, rivals);
    }
  }

  /** Who is first depends only on the rivals with an anchor. */
  lemma SameFirst(ancs: map<Said, Seal>, rivals: set<Said>, ancs': map<Said, Seal>, rivals': set<Said>)
    requires forall x :: x in rivals && x in ancs <==> x in rivals' && x in ancs'
    requires forall x | x in rivals && x in ancs :: ancs[x] == ancs'[x]
    ensures First(ancs, rivals) == First(ancs', rivals')
  {
    NoFirst(ancs, rivals);
    NoFirst(ancs', rivals');
    if First(ancs, rivals).Some? {
      FirstExact(ancs, rivals, First(ancs, rivals).value);
      FirstExact(ancs', rivals', First(ancs, rivals).value);
    }
  }

  // ----- who competes ------------------------------------------------------------------------

  /** The event may follow what is logged below it: nothing for an inception, its predecessor for an update. */
  predicate Continues(e: Serder, issuer: string, below: Option<Said>) {
    if e.ilk.Rip? then e.sn == 0 && e.issuer == issuer else e.ilk.Bup? && e.sn >= 1 && below == Some(e.prior)
  }

  function Contenders(t: Tables, issuer: string, saids: seq<Said>, below: Option<Said>): set<Said> {
    set s | s in saids && s in t.evts && Continues(t.evts[s], issuer, below)
  }

  /** The anchors that are known, and those that the key event log would give. */
  function Seen(t: Tables, kel: Kel): map<Said, Seal> {
    map s | s in t.evts && (s in t.ancs || Discovered(kel, t.evts[s]).Some?) ::
      if s in t.ancs then t.ancs[s] else Discovered(kel, t.evts[s]).value
  }

  function Below(t: Tables, slot: Slot): Option<Said> {
    if slot.sn > 0 && Slot(slot.regk, slot.sn - 1) in t.tels then Some(t.tels[Slot(slot.regk, slot.sn - 1)]) else None
  }

  /** The slot is free, and the one below it is not. */
  predicate Vacant(t: Tables, slot: Slot) {
    slot !in t.tels && (slot.sn > 0 ==> Slot(slot.regk, slot.sn - 1) in t.tels)
  }

  /** At a vacant slot an event can be replayed exactly when it continues what is below. */
  lemma ReplayableExact(w: World, t: Tables, issuer: string, slot: Slot, s: Said)
    requires Bodies(w, t) && Log(w, t) && Vacant(t, slot) && s in t.evts && SlotOf(w.doc(s)) == slot
    ensures Replayable(t, Some(slot.regk), issuer, s) <==> Continues(t.evts[s], issuer, Below(t, slot))
  {
    LoggedExact(w, t, slot);
    if slot.sn > 0 {
      LoggedExact(w, t, Slot(slot.regk, slot.sn - 1));
    }
  }

  // ----- gathering ---------------------------------------------------------------------------

  /** What gathering leaves without an anchor has none that could be found, and it is replayable still. */
  ghost predicate Gathered(t: Tables, bound: Option<Said>, issuer: string, kel: Kel, usable: map<Said, Serder>) {
    forall s | s in usable ::
      && s in t.evts && usable[s] == t.evts[s] && t.evts[s].said == s && Replayable(t, bound, issuer, s)
      && (s in t.ancs || Discovered(kel, usable[s]).None?)
  }

  lemma ClearedGathered(t: Tables, bound: Option<Said>, issuer: string, kel: Kel, slot: Slot, x: Said, usable: map<Said, Serder>)
    requires Gathered(t, bound, issuer, kel, usable)
    ensures Gathered(Cleared(t, slot, x), bound, issuer, kel, usable)
  {
  }

  lemma DiscoverIs(t: Tables, kel: Kel, e: Serder)
    ensures var t' := Discover(t, kel, e);
            && t' == t.(ancs := t'.ancs) && t.ancs.Keys <= t'.ancs.Keys
            && (e.said in t'.ancs || Discovered(kel, e).None?)
  {
  }

  lemma DiscoverGathered(t: Tables, bound: Option<Said>, issuer: string, kel: Kel, x: Said, usable: map<Said, Serder>)
    requires Gathered(t, bound, issuer, kel, usable) && Replayable(t, bound, issuer, x) && t.evts[x].said == x
    ensures var t' := Discover(t, kel, t.evts[x]);
            Gathered(t', bound, issuer, kel, usable[x := t.evts[x]]) && t'.tels == t.tels && t'.evts == t.evts
  {
    var t' := Discover(t, kel, t.evts[x]);
    DiscoverIs(t, kel, t.evts[x]);
    SameReplayable(t, t', bound, issuer);
    forall s | s in t.ancs ensures s in t'.ancs {
      assert s in t.ancs.Keys;
    }
  }

  lemma {:induction false} GatherGathers(w: World, t: Tables, bound: Option<Said>, issuer: string, kel: Kel, slot: Slot,
                                         saids: seq<Said>, usable: map<Said, Serder>)
    requires Bodies(w, t) && Gathered(t, bound, issuer, kel, usable)
    ensures var (t', usable') := Gather(t, bound, issuer, kel, slot, saids, usable);
            Gathered(t', bound, issuer, kel, usable') && t'.tels == t.tels && t'.evts == t.evts
    decreases |saids|
  {
    if saids != [] {
      var s := saids[0];
      if !Replayable(t, bound, issuer, s) {
        ClearedGathered(t, bound, issuer, kel, slot, s, usable);
        GatherGathers(w, Cleared(t, slot, s), bound, issuer, kel, slot, saids[1..], usable);
      } else {
        StoredIsGenuine(w, t, s);
        DiscoverGathered(t, bound, issuer, kel, s, usable);
        GatherGathers(w, Discover(t, kel, t.evts[s]), bound, issuer, kel, slot, saids[1..], usable[s := t.evts[s]]);
      }
    }
  }

  // ----- retrying ----------------------------------------------------------------------------

  lemma SealessStored(t: Tables, kel: Kel, e: Serder, prior: Option<Serder>)
    requires e.said !in t.ancs && Discovered(kel, e).None?
    ensures var o := Placed(Stored(t, kel, e), e, prior);
            !o.done && o.t.tels == t.tels && o.t.ancs == t.ancs
  {
  }

  /** An event without a seal changes neither the log nor any anchor. */
  lemma SealessRetried(t: Tables, bound: Option<Said>, issuer: string, kel: Kel, slot: Slot, e: Serder, said: Said)
    requires e.said !in t.ancs && Discovered(kel, e).None?
    ensures var t' := Retried(t, bound, issuer, kel, slot, e, said); t'.tels == t.tels && t'.ancs == t.ancs
  {
    match Validate(t, bound, issuer, e)
    case Err(_) =>
    case Ok(c) => SealessStored(t, kel, e, c.prior);
  }

  lemma {:induction false} SealessRetry(t: Tables, bound: Option<Said>, issuer: string, kel: Kel, slot: Slot,
                                        usable: map<Said, Serder>, order: seq<Said>)
    requires forall s | s in order :: s in usable && usable[s].said !in t.ancs && Discovered(kel, usable[s]).None?
    ensures Retry(t, bound, issuer, kel, slot, usable, order).tels == t.tels
    decreases |order|
  {
    if order != [] {
      var t1 := Retried(t, bound, issuer, kel, slot, usable[order[0]], order[0]);
      SealessRetried(t, bound, issuer, kel, slot, usable[order[0]], order[0]);
      SealessRetry(t1, bound, issuer, kel, slot, usable, order[1..]);
    }
  }

  lemma InOrderIsDone(w: World, t: Tables, bound: Option<Said>, issuer: string, kel: Kel, e: Serder, pending: set<Said>)
    returns (o: Outcome)
    requires Steady(w, t, pending, None) && Sound(w, kel) && w.doc(e.said) == e && e.said in t.ancs
    requires Validate(t, bound, issuer, e).Ok? && (e.sn == 0 || Slot(RegkOf(e), e.sn - 1) in t.tels)
    ensures Process(t, bound, issuer, kel, e) == Ok(o) && InLog(o.t, e)
    ensures Steady(w, o.t, pending - {e.said}, None) && Grows(t, o.t)
  {
    o := Process(t, bound, issuer, kel, e).value;
    ValidFree(w, t, bound, issuer, e);
    ProcessLands(w, t, bound, issuer, kel, e, pending);
    ProcessKeeps(w, t, bound, issuer, kel, e, pending);
  }

  /** The usable events of a slot, gathered and ready to compete for it. */
  ghost predicate Competing(w: World, t: Tables, issuer: string, kel: Kel, slot: Slot, usable: map<Said, Serder>) {
    && Steady(w, t, usable.Keys, None) && Sound(w, kel) && Usable(w, t, slot, usable)
    && Gathered(t, Some(slot.regk), issuer, kel, usable)
  }

  lemma CompetitorValid(w: World, t: Tables, issuer: string, kel: Kel, slot: Slot, usable: map<Said, Serder>, s: Said)
    requires Competing(w, t, issuer, kel, slot, usable) && s in usable
    ensures usable[s].said == s && w.doc(s) == usable[s] && SlotOf(usable[s]) == slot
    ensures Validate(t, Some(slot.regk), issuer, usable[s]).Ok?
  {
  }

  /** An anchored competitor is logged when its turn comes at a vacant slot. */
  lemma CompetitorIsDone(w: World, t: Tables, issuer: string, kel: Kel, slot: Slot, usable: map<Said, Serder>, s: Said)
    returns (o: Outcome)
    requires Competing(w, t, issuer, kel, slot, usable) && Vacant(t, slot) && s in usable && s in t.ancs
    ensures usable[s].said == s && SlotOf(usable[s]) == slot
    ensures Process(t, Some(slot.regk), issuer, kel, usable[s]) == Ok(o) && InLog(o.t, usable[s])
    ensures Steady(w, o.t, usable.Keys - {s}, None) && Grows(t, o.t)
  {
    CompetitorValid(w, t, issuer, kel, slot, usable, s);
    o := InOrderIsDone(w, t, Some(slot.regk), issuer, kel, usable[s], usable.Keys);
  }

  lemma RestGrows(w: World, t: Tables, issuer: string, kel: Kel, slot: Slot, usable: map<Said, Serder>, order: seq<Said>,
                  o: Outcome)
    requires Sound(w, kel) && Usable(w, t, slot, usable) && order != [] && forall s :: s in order <==> s in usable
    requires usable[order[0]].said == order[0]
    requires Process(t, Some(slot.regk), issuer, kel, usable[order[0]]) == Ok(o)
    requires Steady(w, o.t, usable.Keys - {order[0]}, None) && Grows(t, o.t)
    ensures Grows(o.t, Retry(t, Some(slot.regk), issuer, kel, slot, usable, order))
  {
    UsableGrows(w, t, o.t, slot, usable);
    assert forall s | s in order :: s == order[0] || s in order[1..];
    RetryKeeps(w, o.t, Some(slot.regk), issuer, kel, slot, usable, order[1..], usable.Keys - {order[0]});
  }

  lemma FirstIsLogged(w: World, t: Tables, issuer: string, kel: Kel, slot: Slot, usable: map<Said, Serder>, order: seq<Said>)
    requires Competing(w, t, issuer, kel, slot, usable) && Vacant(t, slot)
    requires order != [] && (forall s :: s in order <==> s in usable) && order[0] in t.ancs
    ensures var t' := Retry(t, Some(slot.regk), issuer, kel, slot, usable, order);
            slot in t'.tels && t'.tels[slot] == order[0]
  {
    var s := order[0];
    assert s in order;
    var o := CompetitorIsDone(w, t, issuer, kel, slot, usable, s);
    RestGrows(w, t, issuer, kel, slot, usable, order, o);
    InLogGrows(o.t, Retry(t, Some(slot.regk), issuer, kel, slot, usable, order), usable[s]);
  }

  /** Which competitor wins a vacant slot: the first in winner order, if it has an anchor. */
  lemma RetryWinner(w: World, t: Tables, issuer: string, kel: Kel, slot: Slot, usable: map<Said, Serder>)
    requires Competing(w, t, issuer, kel, slot, usable) && Vacant(t, slot)
    ensures var t' := Retry(t, Some(slot.regk), issuer, kel, slot, usable, ByWinner(t.ancs, usable.Keys));
            match First(t.ancs, usable.Keys)
            case None => t'.tels == t.tels
            case Some(s) => slot in t'.tels && t'.tels[slot] == s
  {
    var order := ByWinner(t.ancs, usable.Keys);
    FirstInOrder(t.ancs, usable.Keys);
    if First(t.ancs, usable.Keys).Some? {
      FirstIsLogged(w, t, issuer, kel, slot, usable, order);
    } else {
      NoFirst(t.ancs, usable.Keys);
      SealessRetry(t, Some(slot.regk), issuer, kel, slot, usable, order);
    }
  }

  // ----- the winner as seen from before the sweep --------------------------------------------

  lemma DiscoverSeen(t: Tables, kel: Kel, e: Serder)
    requires e.said in t.evts && t.evts[e.said] == e
    ensures Seen(Discover(t, kel, e), kel) == Seen(t, kel)
  {
  }

  lemma GatherNextExact(w: World, t: Tables, bound: Option<Said>, issuer: string, kel: Kel, slot: Slot, s: Said,
                        usable: map<Said, Serder>)
    requires Bodies(w, t)
    ensures var (t1, usable1) := GatherNext(t, bound, issuer, kel, slot, s, usable);
            && t1.tels == t.tels && t1.evts == t.evts && Seen(t1, kel) == Seen(t, kel)
            && usable1.Keys == usable.Keys + if Replayable(t, bound, issuer, s) then {s} else {}
  {
    if Replayable(t, bound, issuer, s) {
      StoredIsGenuine(w, t, s);
      DiscoverSeen(t, kel, t.evts[s]);
    } else {
      assert Seen(Cleared(t, slot, s), kel) == Seen(t, kel);
    }
  }

  lemma SameReplayable(t: Tables, t': Tables, bound: Option<Said>, issuer: string)
    requires t'.tels == t.tels && t'.evts == t.evts
    ensures forall s :: Replayable(t', bound, issuer, s) == Replayable(t, bound, issuer, s)
  {
  }

  function ReplayableOf(t: Tables, bound: Option<Said>, issuer: string, saids: seq<Said>): set<Said> {
    set s | s in saids && Replayable(t, bound, issuer, s)
  }

  lemma ReplayableTail(t: Tables, t': Tables, bound: Option<Said>, issuer: string, saids: seq<Said>)
    requires saids != [] && forall s :: Replayable(t', bound, issuer, s) == Replayable(t, bound, issuer, s)
    ensures ReplayableOf(t, bound, issuer, saids)
         == (if Replayable(t, bound, issuer, saids[0]) then {saids[0]} else {}) + ReplayableOf(t', bound, issuer, saids[1..])
  {
  }

  /** Gathering collects what can be replayed, and finds what the key event log has to give. */
  lemma {:induction false} GatherExact(w: World, t: Tables, bound: Option<Said>, issuer: string, kel: Kel, slot: Slot,
                                       saids: seq<Said>, usable: map<Said, Serder>)
    requires Bodies(w, t)
    ensures var (t', usable') := Gather(t, bound, issuer, kel, slot, saids, usable);
            && t'.tels == t.tels && t'.evts == t.evts && Seen(t', kel) == Seen(t, kel)
            && usable'.Keys == usable.Keys + ReplayableOf(t, bound, issuer, saids)
    decreases |saids|
  {
    if saids != [] {
      var (t1, usable1) := GatherNext(t, bound, issuer, kel, slot, saids[0], usable);
      GatherUnfolds(t, bound, issuer, kel, slot, saids, usable);
      GatherNextExact(w, t, bound, issuer, kel, slot, saids[0], usable);
      SameReplayable(t, t1, bound, issuer);
      GatherExact(w, t1, bound, issuer, kel, slot, saids[1..], usable1);
      ReplayableTail(t, t1, bound, issuer, saids);
    }
  }

  /** The competitors are the contenders of the slot, with the anchors seen before they were gathered. */
  lemma GatherContenders(w: World, t: Tables, issuer: string, kel: Kel, slot: Slot, saids: seq<Said>)
    requires Steady(w, t, {}, None) && Vacant(t, slot) && forall x | x in saids :: SlotOf(w.doc(x)) == slot
    ensures var (t', usable) := Gather(t, Some(slot.regk), issuer, kel, slot, saids, map[]);
            && usable.Keys == Contenders(t, issuer, saids, Below(t, slot)) && Seen(t', kel) == Seen(t, kel)
            && t'.tels == t.tels && t'.evts == t.evts
  {
    GatherExact(w, t, Some(slot.regk), issuer, kel, slot, saids, map[]);
    forall s | s in saids && s in t.evts
      ensures Replayable(t, Some(slot.regk), issuer, s) <==> Continues(t.evts[s], issuer, Below(t, slot))
    {
      ReplayableExact(w, t, issuer, slot, s);
    }
  }

  lemma GatheredFirst(t: Tables, bound: Option<Said>, issuer: string, kel: Kel, usable: map<Said, Serder>)
    requires Gathered(t, bound, issuer, kel, usable)
    ensures First(t.ancs, usable.Keys) == First(Seen(t, kel), usable.Keys)
  {
    SameFirst(t.ancs, usable.Keys, Seen(t, kel), usable.Keys);
  }

  lemma GatherCompetes(w: World, t: Tables, issuer: string, kel: Kel, slot: Slot, saids: seq<Said>)
    requires Steady(w, t, {}, None) && Sound(w, kel) && forall x | x in saids :: SlotOf(w.doc(x)) == slot
    ensures var (t', usable) := Gather(t, Some(slot.regk), issuer, kel, slot, saids, map[]);
            Competing(w, t', issuer, kel, slot, usable)
  {
    var (t', usable) := Gather(t, Some(slot.regk), issuer, kel, slot, saids, map[]);
    GatherGathers(w, t, Some(slot.regk), issuer, kel, slot, saids, map[]);
    GatherSteady(w, t, Some(slot.regk), issuer, kel, slot, saids, t', usable);
  }

  /** Which event wins a vacant slot when its escrow is retried: of those that continue what is below, the one with the
      earliest anchor, known or found; and none wins when none has an anchor. */
  lemma SweepWinner(w: World, t: Tables, issuer: string, kel: Kel, slot: Slot, saids: seq<Said>)
    requires Steady(w, t, {}, None) && Sound(w, kel) && Vacant(t, slot) && forall x | x in saids :: SlotOf(w.doc(x)) == slot
    ensures var t' := RetrySlot(t, slot.regk, issuer, kel, slot, saids);
            match First(Seen(t, kel), Contenders(t, issuer, saids, Below(t, slot)))
            case None => t'.tels == t.tels
            case Some(s) => slot in t'.tels && t'.tels[slot] == s
  {
    var (t1, usable) := Gather(t, Some(slot.regk), issuer, kel, slot, saids, map[]);
    GatherContenders(w, t, issuer, kel, slot, saids);
    GatherCompetes(w, t, issuer, kel, slot, saids);
    GatheredFirst(t1, Some(slot.regk), issuer, kel, usable);
    RetryWinner(w, t1, issuer, kel, slot, usable);
  }

  /** The event logged at a vacant slot has a seal, and it comes before those of all others that could follow what is
      below and have one. */
  lemma RetryLogsSoonest(w: World, t: Tables, issuer: string, kel: Kel, slot: Slot, saids: seq<Said>)
    requires Steady(w, t, {}, None) && Sound(w, kel) && Vacant(t, slot) && forall x | x in saids :: SlotOf(w.doc(x)) == slot
    ensures var t' := RetrySlot(t, slot.regk, issuer, kel, slot, saids);
            slot in t'.tels ==>
              var s, seen := t'.tels[slot], Seen(t, kel);
              && s in Contenders(t, issuer, saids, Below(t, slot)) && s in seen
              && forall x | x in Contenders(t, issuer, saids, Below(t, slot)) && x in seen && x != s ::
                   Sooner(seen[s], s, seen[x], x)
  {
    var rivals := Contenders(t, issuer, saids, Below(t, slot));
    SweepWinner(w, t, issuer, kel, slot, saids);
    if First(Seen(t, kel), rivals).Some? {
      FirstExact(Seen(t, kel), rivals, First(Seen(t, kel), rivals).value);
    }
  }

  /** Of two events sealed by one key event the one with the smaller SAID wins. */
  lemma TieGoesToSmallerSaid()
    ensures First(map["a" := Seal(4, "d"), "b" := Seal(4, "d")], {"a", "b"}) == Some("a")
  {
    var ancs := map["a" := Seal(4, "d"), "b" := Seal(4, "d")];
    assert FirstDiffers("a", "b", 0);
    FirstExact(ancs, {"a", "b"}, "a");
  }

  // ----- the queue ---------------------------------------------------------------------------

  lemma QueuedContends(w: World, t: Tables, regk: Said, issuer: string, s: Said)
    requires Core(w, t) && Vacant(t, NextOf(t, regk)) && s in Entries(t.ooes, NextOf(t, regk))
    ensures s in t.ancs
    ensures Replayable(t, Some(regk), issuer, s) <==>
            s in Contenders(t, issuer, Entries(t.ooes, NextOf(t, regk)), Below(t, NextOf(t, regk)))
  {
    QueuedIsContested(w, t, regk, s);
    ReplayableExact(w, t, issuer, NextOf(t, regk), s);
  }

  lemma BestIsFirst(w: World, t: Tables, regk: Said, issuer: string, s: Said)
    requires Core(w, t) && Vacant(t, NextOf(t, regk))
    ensures var slot := NextOf(t, regk);
            Best(t, regk, issuer, s) <==>
            First(t.ancs, Contenders(t, issuer, Entries(t.ooes, slot), Below(t, slot))) == Some(s)
  {
    var slot := NextOf(t, regk);
    forall x | x in Entries(t.ooes, slot)
      ensures x in t.ancs && (Replayable(t, Some(regk), issuer, x) <==>
                              x in Contenders(t, issuer, Entries(t.ooes, slot), Below(t, slot)))
    {
      QueuedContends(w, t, regk, issuer, x);
    }
    FirstExact(t.ancs, Contenders(t, issuer, Entries(t.ooes, slot), Below(t, slot)), s);
  }

  /** The event that a contest commits is the first of those that continue the log. */
  lemma ContestFirst(w: World, t: Tables, regk: Said, issuer: string)
    requires Core(w, t) && Lists(t)
    ensures var slot := NextOf(t, regk);
            && Vacant(t, slot)
            && Contest(t, regk, issuer).1 == First(t.ancs, Contenders(t, issuer, Entries(t.ooes, slot), Below(t, slot)))
  {
    HeadExact(w, t, regk);
    forall s ensures Contest(t, regk, issuer).1 == Some(s) <==>
                     First(t.ancs, Contenders(t, issuer, Entries(t.ooes, NextOf(t, regk)), Below(t, NextOf(t, regk)))) == Some(s)
    {
      ContestWinner(w, t, regk, issuer, s);
      BestIsFirst(w, t, regk, issuer, s);
    }
  }

  lemma ContestCommits(w: World, t: Tables, regk: Said, issuer: string)
    requires Core(w, t) && Lists(t)
    ensures var (t', winner) := Contest(t, regk, issuer);
            t'.tels == if winner.Some? then t.tels[NextOf(t, regk) := winner.value] else t.tels
  {
    var slot := NextOf(t, regk);
    var order := ByWinner(t.ancs, set x | x in Entries(t.ooes, slot));
    var mid := AdvanceSteps(t, Some(regk), issuer, slot, order);
    var winner := Contest(t, regk, issuer).1;
    if winner.Some? {
      QueuedIsContested(w, t, regk, winner.value);
      StoredIsGenuine(w, t, winner.value);
    }
  }

  /** Draining settles the slot behind the head from the queue alone, whoever waits for it elsewhere: it goes to the first
      of the queued events that continue the log, and stays free when there is none. */
  lemma DrainWinner(w: World, t: Tables, regk: Said, issuer: string, pending: set<Said>)
    requires Steady(w, t, pending, Some(NextOf(t, regk)))
    ensures var slot := NextOf(t, regk);
            var t' := Drain(t, regk, issuer);
            match First(t.ancs, Contenders(t, issuer, Entries(t.ooes, slot), Below(t, slot)))
            case None => t'.tels == t.tels
            case Some(s) => slot in t'.tels && t'.tels[slot] == s
  {
    var slot := NextOf(t, regk);
    var (t', winner) := Contest(t, regk, issuer);
    ContestFirst(w, t, regk, issuer);
    ContestCommits(w, t, regk, issuer);
    if winner.Some? {
      FirstExact(t.ancs, Contenders(t, issuer, Entries(t.ooes, slot), Below(t, slot)), winner.value);
      ContestKeeps(w, t, regk, issuer, pending);
      ContestShrinks(w, t, regk, issuer);
      DrainKeeps(w, t', regk, issuer, pending);
    } else if Entries(t.ooes, slot) == [] {
      assert Drain(t, regk, issuer) == t;
    }
  }
}
