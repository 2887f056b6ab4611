/** What the engine's decisions keep: the rules of the chain, a quiet queue, and nothing left waiting. */
module RegistryInvariants {
  import opened Outcomes
  import opened KeyOrder
  import opened RegistryTables
  import opened InsertionSets
  import opened RegistryStore
  import opened RegistryRules
  import opened RegistryProtocol

  /** The rules hold; only `pending` events may be anchored and still wait for an anchor, and only at `hole`
      may a queued event have its predecessor in the log. */
  ghost predicate Steady(w: World, t: Tables, pending: set<Said>, hole: Option<Slot>) {
    Core(w, t) && Quiet(t, hole) && Waiting(t, pending) && Lists(t)
  }

  /** The key event log vouches only for real seals. */
  ghost predicate Sound(w: World, kel: Kel) {
    forall e, a :: kel.verify(e, a) ==> w.sealed(e, a)
  }

  // ----- escrow lists ------------------------------------------------------------------------

  lemma AddDistinct(s: seq<Said>, x: Said)
    requires Distinct(s)
    ensures Distinct(Add(s, x))
  {
  }

  lemma RemDistinct(s: seq<Said>, x: Said)
    requires Distinct(s)
    ensures Distinct(Rem(s, x))
  {
    if x in s {
      var _ := RemSplit(s, x);
    } else {
      RemAbsent(s, x);
    }
  }

  ghost predicate DistinctLists(m: map<Slot, seq<Said>>) {
    forall slot :: Distinct(Entries(m, slot))
  }

  lemma AddAtLists(m: map<Slot, seq<Said>>, slot: Slot, x: Said)
    requires DistinctLists(m)
    ensures DistinctLists(AddAt(m, slot, x))
  {
    AddDistinct(Entries(m, slot), x);
    forall other ensures Distinct(Entries(AddAt(m, slot, x), other)) {
      assert Distinct(Entries(m, other));
    }
  }

  lemma RemAtLists(m: map<Slot, seq<Said>>, slot: Slot, x: Said)
    requires DistinctLists(m)
    ensures DistinctLists(RemAt(m, slot, x))
  {
    RemDistinct(Entries(m, slot), x);
    forall other ensures Distinct(Entries(RemAt(m, slot, x), other)) {
      assert Distinct(Entries(m, other));
    }
  }

  lemma ListsExact(t: Tables)
    ensures Lists(t) <==> DistinctLists(t.maes) && DistinctLists(t.ooes)
  {
  }

  lemma StepLists(t: Tables, op: Op)
    requires Lists(t)
    ensures Lists(Step(t, op))
  {
    ListsExact(t);
    match op {
      case MissingAnchorAdded(slot, s) => AddAtLists(t.maes, slot, s);
      case OutOfOrderAdded(slot, s) => AddAtLists(t.ooes, slot, s);
      case MissingAnchorRemoved(slot, s) => RemAtLists(t.maes, slot, s);
      case OutOfOrderRemoved(slot, s) => RemAtLists(t.ooes, slot, s);
      case _ =>
    }
    ListsExact(Step(t, op));
  }

  lemma RemAtGone(m: map<Slot, seq<Said>>, slot: Slot, x: Said)
    requires DistinctLists(m)
    ensures x !in Entries(RemAt(m, slot, x), slot)
  {
    RemMembers(Entries(m, slot), x, x);
  }

  lemma ClearedLists(t: Tables, slot: Slot, said: Said)
    requires Lists(t)
    ensures Lists(Cleared(t, slot, said))
    ensures said !in Entries(Cleared(t, slot, said).ooes, slot) && said !in Entries(Cleared(t, slot, said).maes, slot)
  {
    ListsExact(t);
    RemAtLists(t.maes, slot, said);
    RemAtLists(t.ooes, slot, said);
    ListsExact(Cleared(t, slot, said));
    RemAtGone(t.maes, slot, said);
    RemAtGone(t.ooes, slot, said);
  }

  lemma ClearedPrunes(t: Tables, slot: Slot, said: Said)
    ensures Pruned(t, Cleared(t, slot, said))
  {
    RemAtSubset(t.maes, slot, said);
    RemAtSubset(t.ooes, slot, said);
  }

  lemma EmptyAtEmpties(m: map<Slot, seq<Said>>, slot: Slot)
    ensures Emptied(m, slot, EmptyAt(m, slot))
  {
  }

  lemma CommitCommits(t: Tables, e: Serder)
    ensures Committed(t, SlotOf(e), e, Commit(t, e))
    ensures Lists(t) ==> Lists(Commit(t, e))
  {
    EmptyAtEmpties(t.maes, SlotOf(e));
    EmptyAtEmpties(t.ooes, SlotOf(e));
    if Lists(t) {
      forall slot ensures Distinct(Entries(Commit(t, e).maes, slot)) && Distinct(Entries(Commit(t, e).ooes, slot)) {
        assert Distinct(Entries(t.maes, slot)) && Distinct(Entries(t.ooes, slot));
      }
    }
  }

  // ----- the contest for one slot ------------------------------------------------------------

  /** Advancing first drops some entries and then commits at most one candidate. */
  lemma {:induction false} AdvanceSteps(t: Tables, bound: Option<Said>, issuer: string, slot: Slot, order: seq<Said>)
    returns (mid: Tables)
    requires Lists(t)
    ensures Pruned(t, mid) && Lists(mid)
    ensures var (t', winner) := Advance(t, bound, issuer, slot, order);
            match winner
            case None => t' == mid && forall s | s in order :: !Ripe(t, bound, issuer, s)
            case Some(s) => s in order && Ripe(t, bound, issuer, s) && t' == Commit(mid, t.evts[s])
    decreases |order|
  {
    mid := t;
    if order != [] {
      var x := order[0];
      if !Replayable(t, bound, issuer, x) {
        ClearedPrunes(t, slot, x);
        ClearedLists(t, slot, x);
        var t1 := Cleared(t, slot, x);
        mid := AdvanceSteps(t1, bound, issuer, slot, order[1..]);
        PrunedTrans(t, t1, mid);
        assert forall s :: Ripe(t1, bound, issuer, s) == Ripe(t, bound, issuer, s);
      } else if !Ripe(t, bound, issuer, x) {
        mid := AdvanceSteps(t, bound, issuer, slot, order[1..]);
      }
    }
  }

  /** If no candidate can be replayed, none is left in the queue. */
  lemma {:induction false} AdvanceDrops(t: Tables, bound: Option<Said>, issuer: string, slot: Slot, order: seq<Said>)
    requires Lists(t) && forall s | s in order :: !Replayable(t, bound, issuer, s)
    ensures forall s | s in order :: s !in Entries(Advance(t, bound, issuer, slot, order).0.ooes, slot)
    decreases |order|
  {
    if order != [] {
      var t1 := Cleared(t, slot, order[0]);
      ClearedPrunes(t, slot, order[0]);
      ClearedLists(t, slot, order[0]);
      assert forall s :: Replayable(t1, bound, issuer, s) == Replayable(t, bound, issuer, s);
      AdvanceDrops(t1, bound, issuer, slot, order[1..]);
      var mid := AdvanceSteps(t1, bound, issuer, slot, order[1..]);
    }
  }

  /** The candidate committed beats every other one that could have been. */
  lemma {:induction false} AdvanceWinner(t: Tables, bound: Option<Said>, issuer: string, slot: Slot, order: seq<Said>)
    requires SortedBy(Winners(t.ancs), order)
    ensures var (t', winner) := Advance(t, bound, issuer, slot, order);
            winner.Some? ==>
              && winner.value in order && Ripe(t, bound, issuer, winner.value)
              && forall s | s in order && s != winner.value && Ripe(t, bound, issuer, s) ::
                   WinnerLess(t.ancs, winner.value, s)
    decreases |order|
  {
    if order != [] {
      var x := order[0];
      if !Replayable(t, bound, issuer, x) {
        var t1 := Cleared(t, slot, x);
        assert forall s :: Ripe(t1, bound, issuer, s) == Ripe(t, bound, issuer, s);
        AdvanceWinner(t1, bound, issuer, slot, order[1..]);
      } else if !Ripe(t, bound, issuer, x) {
        AdvanceWinner(t, bound, issuer, slot, order[1..]);
      } else {
        forall s | s in order && s != x ensures WinnerLess(t.ancs, x, s) {
          var j :| 0 <= j < |order| && order[j] == s;
          assert Winners(t.ancs)(order[0], order[j]);
        }
      }
    }
  }

  // ----- the slot after the head -------------------------------------------------------------

  /** The slot is free, the one below it is logged, and only anchored updates are queued for it. */
  ghost predicate Contested(w: World, t: Tables, slot: Slot, s: Said) {
    && slot.sn >= 1 && slot !in t.tels && Slot(slot.regk, slot.sn - 1) in t.tels
    && s in t.evts && s in t.ancs && SlotOf(w.doc(s)) == slot && w.doc(s).ilk == Bup
  }

  lemma HeadExact(w: World, t: Tables, regk: Said)
    requires Bodies(w, t) && Heads(w, t)
    ensures if regk in t.heads
            then HeadSn(t, regk) == w.doc(t.heads[regk]).sn && Slot(regk, HeadSn(t, regk)) in t.tels
            else HeadSn(t, regk) == -1
    ensures NextOf(t, regk) !in t.tels
  {
    if regk in t.heads {
      assert HeadTop(w, t, regk);
    }
  }

  lemma QueuedIsContested(w: World, t: Tables, regk: Said, s: Said)
    requires Bodies(w, t) && Heads(w, t) && Queued(w, t) && s in Entries(t.ooes, NextOf(t, regk))
    ensures Contested(w, t, NextOf(t, regk), s)
  {
    assert Escrowed(w, t, NextOf(t, regk), s);
    HeadExact(w, t, regk);
  }

  /** A contested event that can be replayed can be committed, and then it is ready. */
  lemma ContestedIsRipe(w: World, t: Tables, issuer: string, slot: Slot, s: Said)
    requires Bodies(w, t) && Log(w, t) && Contested(w, t, slot, s) && Replayable(t, Some(slot.regk), issuer, s)
    ensures Ripe(t, Some(slot.regk), issuer, s) && Ready(w, t, s)
  {
    var e := t.evts[s];
    assert e == w.doc(s) && e.said == s;
    ValidFree(w, t, Some(slot.regk), issuer, e);
    ValidIsReady(w, t, Some(slot.regk), issuer, e);
  }

  lemma QuietFilled(t: Tables, slot: Slot)
    requires Quiet(t, Some(slot)) && Entries(t.ooes, slot) == []
    ensures Quiet(t, None)
  {
  }

  lemma QuietWeaker(t: Tables, hole: Option<Slot>)
    requires Quiet(t, None)
    ensures Quiet(t, hole)
  {
  }

  lemma FirstMember(s: seq<Said>)
    ensures s != [] ==> s[0] in s
  {
  }

  lemma AllGone(t: Tables, t': Tables, slot: Slot, order: seq<Said>)
    requires Pruned(t, t') && forall s | s in Entries(t.ooes, slot) :: s in order
    requires forall s | s in order :: s !in Entries(t'.ooes, slot)
    ensures Entries(t'.ooes, slot) == []
  {
    FirstMember(Entries(t'.ooes, slot));
  }

  /** What one contest comes to: nobody was left, or the winner extends the log and its slot is settled. */
  lemma ContestKeeps(w: World, t: Tables, regk: Said, issuer: string, pending: set<Said>)
    requires Steady(w, t, pending, Some(NextOf(t, regk)))
    ensures var (t', winner) := Contest(t, regk, issuer);
            && Grows(t, t')
            && (winner.None? ==> Steady(w, t', pending, None))
            && (winner.Some? ==> Steady(w, t', pending, Some(NextOf(t', regk))) && NextOf(t', regk) == NextSlot(NextOf(t, regk)))
  {
    var slot := NextOf(t, regk);
    var order := ByWinner(t.ancs, set s | s in Entries(t.ooes, slot));
    var mid := AdvanceSteps(t, Some(regk), issuer, slot, order);
    PruneKeeps(w, t, mid, pending, Some(slot));
    var (t', winner) := Advance(t, Some(regk), issuer, slot, order);
    if winner.None? {
      forall s | s in order ensures !Replayable(t, Some(regk), issuer, s) {
        QueuedIsContested(w, t, regk, s);
        if Replayable(t, Some(regk), issuer, s) { ContestedIsRipe(w, t, issuer, slot, s); }
      }
      AdvanceDrops(t, Some(regk), issuer, slot, order);
      AllGone(t, mid, slot, order);
      QuietFilled(mid, slot);
    } else {
      WinnerCommits(w, t, mid, regk, issuer, winner.value, pending);
    }
  }

  lemma PrunedReady(w: World, t: Tables, mid: Tables, s: Said)
    requires Pruned(t, mid) && Ready(w, t, s)
    ensures Ready(w, mid, s)
  {
  }

  lemma CommitSteady(w: World, t: Tables, e: Serder, pending: set<Said>)
    requires Steady(w, t, pending, Some(SlotOf(e))) && w.doc(e.said) == e && Ready(w, t, e.said)
    ensures Steady(w, Commit(t, e), pending, Some(NextSlot(SlotOf(e)))) && Grows(t, Commit(t, e))
    ensures NextOf(Commit(t, e), RegkOf(e)) == NextSlot(SlotOf(e))
  {
    CommitCommits(t, e);
    CommitKeeps(w, t, e, Commit(t, e), pending);
  }

  lemma WinnerCommits(w: World, t: Tables, mid: Tables, regk: Said, issuer: string, s: Said, pending: set<Said>)
    requires Core(w, t) && Pruned(t, mid) && Steady(w, mid, pending, Some(NextOf(t, regk)))
    requires s in Entries(t.ooes, NextOf(t, regk)) && Ripe(t, Some(regk), issuer, s)
    ensures var t' := Commit(mid, t.evts[s]);
            && Steady(w, t', pending, Some(NextOf(t', regk))) && NextOf(t', regk) == NextSlot(NextOf(t, regk))
            && Grows(mid, t')
  {
    var slot := NextOf(t, regk);
    QueuedIsContested(w, t, regk, s);
    ContestedIsRipe(w, t, issuer, slot, s);
    PrunedReady(w, t, mid, s);
    CommitSteady(w, mid, t.evts[s], pending);
  }

  /** Whether a queued event is the one to commit: it can be replayed, and its seal comes before those of all others that
      can. */
  ghost predicate Best(t: Tables, regk: Said, issuer: string, s: Said) {
    var queue := Entries(t.ooes, NextOf(t, regk));
    && s in queue && s in t.ancs && Replayable(t, Some(regk), issuer, s)
    && forall x | x in queue && x in t.ancs && x != s && Replayable(t, Some(regk), issuer, x) ::
         Sooner(t.ancs[s], s, t.ancs[x], x)
  }

  lemma QueuedReplaysIfRipe(w: World, t: Tables, regk: Said, issuer: string, s: Said)
    requires Core(w, t) && s in Entries(t.ooes, NextOf(t, regk))
    ensures Replayable(t, Some(regk), issuer, s) <==> Ripe(t, Some(regk), issuer, s)
  {
    QueuedIsContested(w, t, regk, s);
    if Replayable(t, Some(regk), issuer, s) {
      ContestedIsRipe(w, t, issuer, NextOf(t, regk), s);
    }
  }

  lemma WinnerAsymmetric(ancs: map<Said, Seal>, x: Said, y: Said)
    requires WinnerLess(ancs, x, y)
    ensures !WinnerLess(ancs, y, x)
  {
    WinnersStrictTotal(ancs);
    assert !Winners(ancs)(x, x);
    if WinnerLess(ancs, y, x) {
      WinnerTrans(ancs, x, y, x);
    }
  }

  /** The event that is committed does not depend on the order of the queue: it is the one with the earliest
      anchor, ties going to the smaller digest and then to the smaller SAID. */
  lemma ContestWinner(w: World, t: Tables, regk: Said, issuer: string, s: Said)
    requires Core(w, t) && Lists(t)
    ensures Contest(t, regk, issuer).1 == Some(s) <==> Best(t, regk, issuer, s)
  {
    var queue := Entries(t.ooes, NextOf(t, regk));
    var order := ByWinner(t.ancs, set x | x in queue);
    forall x | x in queue
      ensures x in order && (Replayable(t, Some(regk), issuer, x) <==> Ripe(t, Some(regk), issuer, x))
      ensures s in t.ancs && x in t.ancs ==> (WinnerLess(t.ancs, s, x) <==> Sooner(t.ancs[s], s, t.ancs[x], x))
    {
      QueuedReplaysIfRipe(w, t, regk, issuer, x);
      if s in t.ancs && x in t.ancs { WinnerLessExact(t.ancs, s, x); }
    }
    var mid := AdvanceSteps(t, Some(regk), issuer, NextOf(t, regk), order);
    AdvanceWinner(t, Some(regk), issuer, NextOf(t, regk), order);
    var winner := Contest(t, regk, issuer).1;
    if Best(t, regk, issuer, s) && winner.Some? && winner.value != s {
      WinnerAsymmetric(t.ancs, s, winner.value);
    }
  }

  // ----- draining the queue ------------------------------------------------------------------

  lemma GrowsTrans(t: Tables, t': Tables, t'': Tables)
    requires Grows(t, t') && Grows(t', t'')
    ensures Grows(t, t'')
  {
  }

  lemma CommitSlots(t: Tables, mid: Tables, e: Serder)
    requires Pruned(t, mid) && Entries(t.ooes, SlotOf(e)) != []
    ensures QueueSlots(Commit(mid, e)) < QueueSlots(t)
  {
    EmptyAtEmpties(mid.ooes, SlotOf(e));
    forall x | x in QueueSlots(Commit(mid, e)) ensures x in QueueSlots(t) && x != SlotOf(e) {
      FirstMember(Entries(mid.ooes, x));
      assert Entries(mid.ooes, x)[0] in Entries(t.ooes, x);
    }
    assert SlotOf(e) in QueueSlots(t);
  }

  lemma FewerIsLess<T>(a: set<T>, b: set<T>)
    requires a < b
    ensures |a| < |b|
  {
    assert b == a + (b - a) && a !! (b - a);
  }

  /** A commit settles one more slot of the queue, so draining stops only when there is nothing to commit. */
  lemma ContestShrinks(w: World, t: Tables, regk: Said, issuer: string)
    requires Core(w, t) && Lists(t)
    ensures Contest(t, regk, issuer).1.Some? ==> |QueueSlots(Contest(t, regk, issuer).0)| < |QueueSlots(t)|
  {
    var slot := NextOf(t, regk);
    var order := ByWinner(t.ancs, set s | s in Entries(t.ooes, slot));
    var mid := AdvanceSteps(t, Some(regk), issuer, slot, order);
    var (t', winner) := Advance(t, Some(regk), issuer, slot, order);
    if winner.Some? {
      QueuedIsContested(w, t, regk, winner.value);
      CommitSlots(t, mid, t.evts[winner.value]);
      FewerIsLess(QueueSlots(t'), QueueSlots(t));
    }
  }

  /** Draining closes the hole behind the head. */
  lemma {:induction false} DrainKeeps(w: World, t: Tables, regk: Said, issuer: string, pending: set<Said>)
    requires Steady(w, t, pending, Some(NextOf(t, regk)))
    ensures Steady(w, Drain(t, regk, issuer), pending, None) && Grows(t, Drain(t, regk, issuer))
    decreases |QueueSlots(t)|
  {
    if Entries(t.ooes, NextOf(t, regk)) == [] {
      QuietFilled(t, NextOf(t, regk));
    } else {
      var (t', winner) := Contest(t, regk, issuer);
      ContestKeeps(w, t, regk, issuer, pending);
      ContestShrinks(w, t, regk, issuer);
      if winner.Some? {
        DrainKeeps(w, t', regk, issuer, pending);
        GrowsTrans(t, t', Drain(t', regk, issuer));
      }
    }
  }

  // ----- one event ---------------------------------------------------------------------------

  lemma SealKeeps(w: World, t: Tables, e: Serder, a: Seal, pending: set<Said>)
    requires Steady(w, t, pending, None) && e.said in t.evts && w.doc(e.said) == e && w.sealed(e, a)
    ensures var t' := Step(t, AnchorPut(e.said, a));
            Steady(w, t', pending + {e.said}, None) && Grows(t, t') && e.said in t'.ancs
  {
    PutAnchorKeeps(w, t, e.said, a, pending, None);
    StepLists(t, AnchorPut(e.said, a));
  }

  lemma DiscoverKeeps(w: World, t: Tables, kel: Kel, e: Serder, pending: set<Said>)
    requires Steady(w, t, pending, None) && Sound(w, kel) && e.said in t.evts && w.doc(e.said) == e
    ensures var t' := Discover(t, kel, e);
            && Steady(w, t', pending + {e.said}, None) && Grows(t, t') && e.said in t'.evts
            && t'.tels == t.tels && t'.evts == t.evts
  {
    if e.said !in t.ancs && Discovered(kel, e).Some? {
      SealKeeps(w, t, e, Discovered(kel, e).value, pending);
    }
  }

  lemma StoredKeeps(w: World, t: Tables, kel: Kel, e: Serder, pending: set<Said>)
    requires Steady(w, t, pending, None) && Sound(w, kel) && w.doc(e.said) == e
    ensures var t' := Stored(t, kel, e);
            && Steady(w, t', pending + {e.said}, None) && Grows(t, t') && e.said in t'.evts && t'.tels == t.tels
  {
    PutEventKeeps(w, t, e, pending, None);
    DiscoverKeeps(w, Step(t, EventPut(e)), kel, e, pending);
    GrowsTrans(t, Step(t, EventPut(e)), Stored(t, kel, e));
  }

  /** An event that has an anchor leaves the missing-anchor escrow. */
  lemma RemovedKeeps(w: World, t: Tables, s: Said, pending: set<Said>)
    requires Steady(w, t, pending, None)
    ensures var t' := Step(t, MissingAnchorRemoved(SlotOf(w.doc(s)), s));
            Steady(w, t', pending - {s}, None) && Grows(t, t') && Pruned(t, t')
  {
    var slot := SlotOf(w.doc(s));
    var t' := Step(t, MissingAnchorRemoved(slot, s));
    RemPrunes(t, slot, s);
    PruneKeeps(w, t, t', pending, None);
    StepLists(t, MissingAnchorRemoved(slot, s));
    RemMembers(Entries(t.maes, slot), s, s);
    WaitingDrops(w, t', s, pending);
  }

  lemma WaitingUnanchored(t: Tables, s: Said, pending: set<Said>)
    requires Waiting(t, pending) && s !in t.ancs
    ensures Waiting(t, pending - {s})
  {
  }

  /** What an event must be for Placed: stored, of a free slot, with its predecessor as validation found it. */
  ghost predicate Placeable(w: World, t: Tables, e: Serder, prior: Option<Serder>) {
    && w.doc(e.said) == e && e.said in t.evts && SlotOf(e) !in t.tels
    && (e.ilk == Rip || (e.ilk == Bup && e.sn >= 1))
    && (e.ilk == Rip ==> e.sn == 0)
    && (e.ilk == Bup ==> if prior.Some? then Slot(RegkOf(e), e.sn - 1) in t.tels
                                          && t.tels[Slot(RegkOf(e), e.sn - 1)] == e.prior
                         else Slot(RegkOf(e), e.sn - 1) !in t.tels)
  }

  lemma UnanchoredKeeps(w: World, t: Tables, e: Serder, pending: set<Said>)
    requires Steady(w, t, pending, None) && w.doc(e.said) == e && e.said in t.evts && SlotOf(e) !in t.tels
    requires e.said !in t.ancs
    ensures var t' := Step(t, MissingAnchorAdded(SlotOf(e), e.said));
            Steady(w, t', pending - {e.said}, None) && Grows(t, t')
  {
    var t' := Step(t, MissingAnchorAdded(SlotOf(e), e.said));
    EscrowMissingKeeps(w, t, e.said, t', pending);
    StepLists(t, MissingAnchorAdded(SlotOf(e), e.said));
    WaitingUnanchored(t', e.said, pending);
  }

  lemma PlaceableAhead(w: World, t: Tables, e: Serder)
    requires Placeable(w, t, e, None) && e.ilk == Bup
    ensures e.said in t.evts && w.doc(e.said) == e && e.sn >= 1 && SlotOf(e) !in t.tels
    ensures Slot(RegkOf(e), e.sn - 1) !in t.tels
  {
  }

  lemma QueuedKeeps(w: World, t: Tables, s: Said, t': Tables, pending: set<Said>)
    requires Steady(w, t, pending, None)
    requires s in t.evts && s in t.ancs && w.doc(s).ilk == Bup && w.doc(s).sn >= 1
    requires SlotOf(w.doc(s)) !in t.tels && Slot(RegkOf(w.doc(s)), w.doc(s).sn - 1) !in t.tels
    requires t' == Step(t, OutOfOrderAdded(SlotOf(w.doc(s)), s))
    ensures Steady(w, t', pending, None) && Grows(t, t')
  {
    EscrowQueueKeeps(w, t, s, t', pending);
    StepLists(t, OutOfOrderAdded(SlotOf(w.doc(s)), s));
  }

  lemma PlaceableReady(w: World, t: Tables, e: Serder, prior: Option<Serder>)
    requires Placeable(w, t, e, prior) && e.said in t.ancs && (e.ilk.Rip? || prior.Some?)
    ensures w.doc(e.said) == e && Ready(w, t, e.said)
  {
  }

  lemma LoggedKeeps(w: World, t: Tables, e: Serder, pending: set<Said>)
    requires Steady(w, t, pending, None) && w.doc(e.said) == e && Ready(w, t, e.said)
    ensures var t' := Commit(t, e);
            Steady(w, t', pending, Some(NextOf(t', RegkOf(e)))) && Grows(t, t')
  {
    QuietWeaker(t, Some(SlotOf(e)));
    CommitSteady(w, t, e, pending);
  }

  lemma CommitSettles(w: World, t: Tables, e: Serder, issuer: string, pending: set<Said>)
    requires Steady(w, t, pending, None) && w.doc(e.said) == e && Ready(w, t, e.said)
    ensures var t' := Drain(Commit(t, e), RegkOf(e), issuer);
            Steady(w, t', pending, None) && Grows(t, t')
  {
    var t' := Commit(t, e);
    LoggedKeeps(w, t, e, pending);
    DrainKeeps(w, t', RegkOf(e), issuer, pending);
    GrowsTrans(t, t', Drain(t', RegkOf(e), issuer));
  }

  lemma RemovedPlaceable(w: World, t: Tables, t': Tables, e: Serder, prior: Option<Serder>)
    requires Placeable(w, t, e, prior) && Pruned(t, t')
    ensures Placeable(w, t', e, prior)
  {
  }

  lemma QueueSettles(w: World, t: Tables, e: Serder, pending: set<Said>)
    requires Steady(w, t, pending, None) && Placeable(w, t, e, None) && e.ilk == Bup && e.said in t.ancs
    ensures var t' := Step(t, OutOfOrderAdded(SlotOf(e), e.said));
            Steady(w, t', pending, None) && Grows(t, t')
  {
    PlaceableAhead(w, t, e);
    QueuedKeeps(w, t, e.said, Step(t, OutOfOrderAdded(SlotOf(e), e.said)), pending);
  }

  lemma AnchoredSettles(w: World, t: Tables, e: Serder, prior: Option<Serder>, issuer: string, pending: set<Said>)
    requires Steady(w, t, pending, None) && Placeable(w, t, e, prior) && e.said in t.ancs
    ensures var t' := if e.ilk.Rip? || prior.Some? then Drain(Commit(t, e), RegkOf(e), issuer)
                      else Step(t, OutOfOrderAdded(SlotOf(e), e.said));
            Steady(w, t', pending, None) && Grows(t, t')
  {
    if e.ilk.Rip? || prior.Some? {
      PlaceableReady(w, t, e, prior);
      CommitSettles(w, t, e, issuer, pending);
    } else {
      QueueSettles(w, t, e, pending);
    }
  }

  lemma SettledKeeps(w: World, t: Tables, e: Serder, prior: Option<Serder>, issuer: string, pending: set<Said>)
    requires Steady(w, t, pending, None) && Placeable(w, t, e, prior)
    ensures var o := Settle(Placed(t, e, prior), RegkOf(e), issuer);
            Steady(w, o.t, pending - {e.said}, None) && Grows(t, o.t)
  {
    if e.said !in t.ancs {
      UnanchoredKeeps(w, t, e, pending);
    } else {
      var t' := Step(t, MissingAnchorRemoved(SlotOf(e), e.said));
      RemovedKeeps(w, t, e.said, pending);
      RemovedPlaceable(w, t, t', e, prior);
      AnchoredSettles(w, t', e, prior, issuer, pending - {e.said});
      GrowsTrans(t, t', Settle(Placed(t, e, prior), RegkOf(e), issuer).t);
    }
  }

  lemma ValidIsPlaceable(w: World, t: Tables, bound: Option<Said>, issuer: string, e: Serder, t': Tables)
    requires Bodies(w, t) && Log(w, t) && w.doc(e.said) == e && Validate(t, bound, issuer, e).Ok?
    requires Validate(t, bound, issuer, e).value.existing.None?
    requires t'.tels == t.tels && e.said in t'.evts
    ensures Placeable(w, t', e, Validate(t, bound, issuer, e).value.prior)
  {
    LoggedExact(w, t, SlotOf(e));
    if e.ilk.Bup? {
      LoggedExact(w, t, Slot(RegkOf(e), e.sn - 1));
    }
  }

  /** Processing a genuine event keeps the rules, loses nothing, and leaves the event waiting for nothing it has. */
  lemma ProcessKeeps(w: World, t: Tables, bound: Option<Said>, issuer: string, kel: Kel, e: Serder, pending: set<Said>)
    requires Steady(w, t, pending, None) && Sound(w, kel) && w.doc(e.said) == e
    requires Process(t, bound, issuer, kel, e).Ok?
    ensures var t' := Process(t, bound, issuer, kel, e).value.t;
            Steady(w, t', pending - {e.said}, None) && Grows(t, t')
  {
    var c := Validate(t, bound, issuer, e).value;
    if c.existing.Some? {
      ValidFree(w, t, bound, issuer, e);
      DecidedIsNotEscrowed(w, t, e.said);
      WaitingDrops(w, t, e.said, pending);
    } else {
      var t1 := Stored(t, kel, e);
      StoredKeeps(w, t, kel, e, pending);
      ValidIsPlaceable(w, t, bound, issuer, e, t1);
      SettledKeeps(w, t1, e, c.prior, issuer, pending + {e.said});
      WaitingMono(Process(t, bound, issuer, kel, e).value.t, pending + {e.said} - {e.said}, pending - {e.said});
      GrowsTrans(t, t1, Process(t, bound, issuer, kel, e).value.t);
    }
  }

  lemma PlacedOpens(w: World, t: Tables, bound: Option<Said>, issuer: string, kel: Kel, e: Serder, pending: set<Said>)
    requires Steady(w, t, pending, None) && Sound(w, kel) && w.doc(e.said) == e
    requires Validate(t, bound, issuer, e).Ok? && Validate(t, bound, issuer, e).value.existing.None?
    requires Placed(Stored(t, kel, e), e, Validate(t, bound, issuer, e).value.prior).done
    ensures var t' := Placed(Stored(t, kel, e), e, Validate(t, bound, issuer, e).value.prior).t;
            Steady(w, t', pending - {e.said}, Some(NextOf(t', RegkOf(e))))
  {
    var prior := Validate(t, bound, issuer, e).value.prior;
    var t1 := Stored(t, kel, e);
    var t2 := Step(t1, MissingAnchorRemoved(SlotOf(e), e.said));
    StoredKeeps(w, t, kel, e, pending);
    ValidIsPlaceable(w, t, bound, issuer, e, t1);
    RemovedKeeps(w, t1, e.said, pending + {e.said});
    RemovedReady(w, t1, t2, e, prior);
    LoggedKeeps(w, t2, e, pending + {e.said} - {e.said});
    WaitingMono(Commit(t2, e), pending + {e.said} - {e.said}, pending - {e.said});
  }

  lemma WaitingMono(t: Tables, small: set<Said>, big: set<Said>)
    requires Waiting(t, small) && small <= big
    ensures Waiting(t, big)
  {
  }

  lemma AnchoredLog(t: Tables, kel: Kel, e: Serder, couple: Option<Seal>)
    ensures var t' := Anchored(t, kel, e, couple);
            t'.tels == t.tels && t'.heads == t.heads && t'.evts == t.evts
  {
  }

  lemma RefusedCouple(w: World, t: Tables, kel: Kel, e: Serder, a: Seal, pending: set<Said>)
    requires Steady(w, t, pending, None) && !kel.verify(e, a)
    ensures Anchored(t, kel, e, Some(a)) == t && Steady(w, t, pending + {e.said}, None) && Grows(t, t)
  {
    WaitingMono(t, pending, pending + {e.said});
  }

  lemma GivenCouple(w: World, t: Tables, kel: Kel, e: Serder, a: Seal, pending: set<Said>)
    requires Steady(w, t, pending, None) && Sound(w, kel) && e.said in t.evts && w.doc(e.said) == e && kel.verify(e, a)
    ensures var t' := Anchored(t, kel, e, Some(a));
            Steady(w, t', pending + {e.said}, None) && Grows(t, t') && e.said in t'.ancs
  {
    SealKeeps(w, t, e, a, pending);
    assert Anchored(t, kel, e, Some(a)) == Step(t, AnchorPut(e.said, a));
  }

  lemma CoupleKeeps(w: World, t: Tables, kel: Kel, e: Serder, a: Seal, pending: set<Said>)
    requires Steady(w, t, pending, None) && Sound(w, kel) && e.said in t.evts && w.doc(e.said) == e
    ensures var t' := Anchored(t, kel, e, Some(a));
            Steady(w, t', pending + {e.said}, None) && Grows(t, t') && (kel.verify(e, a) ==> e.said in t'.ancs)
  {
    if kel.verify(e, a) {
      GivenCouple(w, t, kel, e, a, pending);
    } else {
      RefusedCouple(w, t, kel, e, a, pending);
    }
  }

  lemma AnchoredKeeps(w: World, t: Tables, kel: Kel, e: Serder, couple: Option<Seal>, pending: set<Said>)
    requires Steady(w, t, pending, None) && Sound(w, kel) && e.said in t.evts && w.doc(e.said) == e
    ensures var t' := Anchored(t, kel, e, couple);
            && Steady(w, t', pending + {e.said}, None) && Grows(t, t') && t'.tels == t.tels && t'.evts == t.evts
            && (AnchorFault(t, kel, e, couple) || e.said in t'.ancs)
  {
    AnchoredLog(t, kel, e, couple);
    match couple
    case None => DiscoverKeeps(w, t, kel, e, pending);
    case Some(a) => CoupleKeeps(w, t, kel, e, a, pending);
  }

  lemma AnchorMsgIs(t: Tables, bound: Option<Said>, issuer: string, kel: Kel, said: Said,
                    number: Option<nat>, dig: Option<string>, o: Outcome)
    requires AnchorMsg(t, bound, issuer, kel, said, number, dig) == Ok(o)
    ensures said in t.evts && !AnchorFault(t, kel, t.evts[said], CoupleOf(number, dig))
    ensures Process(Anchored(t, kel, t.evts[said], CoupleOf(number, dig)), bound, issuer, kel, t.evts[said]) == Ok(o)
  {
  }

  lemma StoredIsGenuine(w: World, t: Tables, said: Said)
    requires Bodies(w, t) && said in t.evts
    ensures t.evts[said].said == said && w.doc(said) == t.evts[said]
  {
  }

  lemma CoupledKeeps(w: World, t: Tables, bound: Option<Said>, issuer: string, kel: Kel, e: Serder,
                     couple: Option<Seal>, o: Outcome)
    requires Steady(w, t, {}, None) && Sound(w, kel) && e.said in t.evts && w.doc(e.said) == e
    requires Process(Anchored(t, kel, e, couple), bound, issuer, kel, e) == Ok(o)
    ensures Steady(w, o.t, {}, None) && Grows(t, o.t)
  {
    var t1 := Anchored(t, kel, e, couple);
    AnchoredKeeps(w, t, kel, e, couple, {});
    ProcessKeeps(w, t1, bound, issuer, kel, e, {} + {e.said});
    WaitingMono(o.t, {} + {e.said} - {e.said}, {});
    GrowsTrans(t, t1, o.t);
  }

  lemma AnchorMsgKeeps(w: World, t: Tables, bound: Option<Said>, issuer: string, kel: Kel, said: Said,
                       number: Option<nat>, dig: Option<string>, o: Outcome)
    requires Steady(w, t, {}, None) && Sound(w, kel) && AnchorMsg(t, bound, issuer, kel, said, number, dig) == Ok(o)
    ensures Steady(w, o.t, {}, None) && Grows(t, o.t)
  {
    AnchorMsgIs(t, bound, issuer, kel, said, number, dig, o);
    StoredIsGenuine(w, t, said);
    CoupledKeeps(w, t, bound, issuer, kel, t.evts[said], CoupleOf(number, dig), o);
  }

  // ----- the missing-anchor escrow -----------------------------------------------------------

  lemma ClearedKeeps(w: World, t: Tables, slot: Slot, s: Said, pending: set<Said>)
    requires Steady(w, t, pending, None)
    ensures Steady(w, Cleared(t, slot, s), pending, None) && Grows(t, Cleared(t, slot, s))
    ensures SlotOf(w.doc(s)) == slot ==> Steady(w, Cleared(t, slot, s), pending - {s}, None)
  {
    ClearedPrunes(t, slot, s);
    ClearedLists(t, slot, s);
    PruneKeeps(w, t, Cleared(t, slot, s), pending, None);
    if SlotOf(w.doc(s)) == slot {
      WaitingDrops(w, Cleared(t, slot, s), s, pending);
    }
  }

  /** Every usable event is stored under its own SAID and belongs to the slot. */
  ghost predicate Usable(w: World, t: Tables, slot: Slot, usable: map<Said, Serder>) {
    forall s | s in usable :: s in t.evts && usable[s] == w.doc(s) && w.doc(s).said == s && SlotOf(w.doc(s)) == slot
  }

  lemma UsableGrows(w: World, t: Tables, t': Tables, slot: Slot, usable: map<Said, Serder>)
    requires Usable(w, t, slot, usable) && Grows(t, t')
    ensures Usable(w, t', slot, usable)
  {
    assert t.evts.Keys <= t'.evts.Keys;
  }

  /** One more usable event: its anchor is looked for, and from then on it is pending. */
  lemma GatherOne(w: World, t: Tables, kel: Kel, slot: Slot, s: Said, usable: map<Said, Serder>)
    requires Steady(w, t, usable.Keys, None) && Sound(w, kel) && Usable(w, t, slot, usable)
    requires s in t.evts && SlotOf(w.doc(s)) == slot
    ensures var t' := Discover(t, kel, t.evts[s]);
            && Steady(w, t', usable[s := t.evts[s]].Keys, None) && Usable(w, t', slot, usable[s := t.evts[s]])
            && Grows(t, t') && t'.tels == t.tels
  {
    var e := t.evts[s];
    StoredIsGenuine(w, t, s);
    DiscoverKeeps(w, t, kel, e, usable.Keys);
    WaitingMono(Discover(t, kel, e), usable.Keys + {e.said}, usable[s := e].Keys);
    UsableGrows(w, t, Discover(t, kel, e), slot, usable);
  }

  /** One step of gathering. */
  function GatherNext(t: Tables, bound: Option<Said>, issuer: string, kel: Kel, slot: Slot, s: Said,
                      usable: map<Said, Serder>): (Tables, map<Said, Serder>)
  {
    if Replayable(t, bound, issuer, s) then (Discover(t, kel, t.evts[s]), usable[s := t.evts[s]])
    else (Cleared(t, slot, s), usable)
  }

  lemma GatherUnfolds(t: Tables, bound: Option<Said>, issuer: string, kel: Kel, slot: Slot, saids: seq<Said>,
                      usable: map<Said, Serder>)
    requires saids != []
    ensures var (t1, usable1) := GatherNext(t, bound, issuer, kel, slot, saids[0], usable);
            Gather(t, bound, issuer, kel, slot, saids, usable) == Gather(t1, bound, issuer, kel, slot, saids[1..], usable1)
  {
  }

  lemma GatherNextKeeps(w: World, t: Tables, bound: Option<Said>, issuer: string, kel: Kel, slot: Slot, s: Said,
                        usable: map<Said, Serder>)
    requires Steady(w, t, usable.Keys, None) && Sound(w, kel) && Usable(w, t, slot, usable) && SlotOf(w.doc(s)) == slot
    ensures var (t1, usable1) := GatherNext(t, bound, issuer, kel, slot, s, usable);
            && Steady(w, t1, usable1.Keys, None) && Usable(w, t1, slot, usable1) && Grows(t, t1) && t1.tels == t.tels
  {
    if Replayable(t, bound, issuer, s) {
      GatherOne(w, t, kel, slot, s, usable);
    } else {
      ClearedKeeps(w, t, slot, s, usable.Keys);
      UsableGrows(w, t, Cleared(t, slot, s), slot, usable);
    }
  }

  lemma {:induction false} GatherKeeps(w: World, t: Tables, bound: Option<Said>, issuer: string, kel: Kel,
                                       slot: Slot, saids: seq<Said>, usable: map<Said, Serder>)
    requires Steady(w, t, usable.Keys, None) && Sound(w, kel) && Usable(w, t, slot, usable)
    requires forall s | s in saids :: SlotOf(w.doc(s)) == slot
    ensures var (t', usable') := Gather(t, bound, issuer, kel, slot, saids, usable);
            Steady(w, t', usable'.Keys, None) && Usable(w, t', slot, usable') && Grows(t, t') && t'.tels == t.tels
    decreases |saids|
  {
    if saids != [] {
      var (t1, usable1) := GatherNext(t, bound, issuer, kel, slot, saids[0], usable);
      GatherUnfolds(t, bound, issuer, kel, slot, saids, usable);
      GatherNextKeeps(w, t, bound, issuer, kel, slot, saids[0], usable);
      GatherKeeps(w, t1, bound, issuer, kel, slot, saids[1..], usable1);
      GrowsTrans(t, t1, Gather(t1, bound, issuer, kel, slot, saids[1..], usable1).0);
    }
  }

  lemma GatherSteady(w: World, t: Tables, bound: Option<Said>, issuer: string, kel: Kel, slot: Slot, saids: seq<Said>,
                     t': Tables, usable: map<Said, Serder>)
    requires Steady(w, t, {}, None) && Sound(w, kel) && forall s | s in saids :: SlotOf(w.doc(s)) == slot
    requires t' == Gather(t, bound, issuer, kel, slot, saids, map[]).0
    requires usable == Gather(t, bound, issuer, kel, slot, saids, map[]).1
    ensures Steady(w, t', usable.Keys, None) && Usable(w, t', slot, usable) && Grows(t, t')
  {
    var none: map<Said, Serder> := map[];
    WaitingMono(t, {}, none.Keys);
    GatherKeeps(w, t, bound, issuer, kel, slot, saids, none);
  }

  lemma {:induction false} RetryKeeps(w: World, t: Tables, bound: Option<Said>, issuer: string, kel: Kel, slot: Slot,
                                      usable: map<Said, Serder>, order: seq<Said>, pending: set<Said>)
    requires Steady(w, t, pending, None) && Sound(w, kel) && Usable(w, t, slot, usable)
    requires forall s | s in order :: s in usable
    requires forall s | s in pending :: s in order
    ensures var t' := Retry(t, bound, issuer, kel, slot, usable, order);
            Steady(w, t', {}, None) && Grows(t, t')
    decreases |order|
  {
    if order == [] {
      assert pending == {};
    } else {
      var s := order[0];
      var t1 := Retried(t, bound, issuer, kel, slot, usable[s], s);
      if Process(t, bound, issuer, kel, usable[s]).Ok? {
        ProcessKeeps(w, t, bound, issuer, kel, usable[s], pending);
      } else {
        ClearedKeeps(w, t, slot, s, pending);
      }
      RetryKeeps(w, t1, bound, issuer, kel, slot, usable, order[1..], pending - {s});
      GrowsTrans(t, t1, Retry(t, bound, issuer, kel, slot, usable, order));
    }
  }

  lemma RetrySlotKeeps(w: World, t: Tables, regk: Said, issuer: string, kel: Kel, slot: Slot, saids: seq<Said>)
    requires Steady(w, t, {}, None) && Sound(w, kel)
    requires forall s | s in saids :: SlotOf(w.doc(s)) == slot
    ensures var t' := RetrySlot(t, regk, issuer, kel, slot, saids);
            Steady(w, t', {}, None) && Grows(t, t')
  {
    var (t1, usable) := Gather(t, Some(regk), issuer, kel, slot, saids, map[]);
    GatherKeeps(w, t, Some(regk), issuer, kel, slot, saids, map[]);
    RetryKeeps(w, t1, Some(regk), issuer, kel, slot, usable, ByWinner(t1.ancs, usable.Keys), usable.Keys);
    GrowsTrans(t, t1, RetrySlot(t, regk, issuer, kel, slot, saids));
  }

  /** Every entry is listed at its own slot. */
  ghost predicate Home(w: World, maes: map<Slot, seq<Said>>) {
    forall slot, s | s in Entries(maes, slot) :: SlotOf(w.doc(s)) == slot
  }

  lemma MissingHome(w: World, t: Tables)
    requires Missing(w, t)
    ensures Home(w, t.maes)
  {
    forall slot, s | s in Entries(t.maes, slot) ensures SlotOf(w.doc(s)) == slot {
      assert Escrowed(w, t, slot, s);
    }
  }

  lemma {:induction false} RetryAllKeeps(w: World, t: Tables, regk: Said, issuer: string, kel: Kel,
                                         maes: map<Slot, seq<Said>>, sns: seq<nat>)
    requires Steady(w, t, {}, None) && Sound(w, kel)
    requires Home(w, maes)
    ensures var t' := RetryAll(t, regk, issuer, kel, maes, sns);
            Steady(w, t', {}, None) && Grows(t, t')
    decreases |sns|
  {
    if sns != [] {
      var slot := Slot(regk, sns[0]);
      var t1 := RetrySlot(t, regk, issuer, kel, slot, Entries(maes, slot));
      RetrySlotKeeps(w, t, regk, issuer, kel, slot, Entries(maes, slot));
      RetryAllKeeps(w, t1, regk, issuer, kel, maes, sns[1..]);
      GrowsTrans(t, t1, RetryAll(t, regk, issuer, kel, maes, sns));
    }
  }

  /** A pass over the escrows keeps the rules and loses nothing. */
  lemma EscrowsKeep(w: World, t: Tables, bound: Option<Said>, issuer: string, kel: Kel)
    requires Steady(w, t, {}, None) && Sound(w, kel)
    ensures var t' := ProcessEscrows(t, bound, issuer, kel);
            Steady(w, t', {}, None) && Grows(t, t')
  {
    if bound.Some? {
      var sns := EscrowedSns(t.maes, bound.value);
      MissingHome(w, t);
      var t1 := RetryAll(t, bound.value, issuer, kel, t.maes, sns);
      RetryAllKeeps(w, t, bound.value, issuer, kel, t.maes, sns);
      QuietWeaker(t1, Some(NextOf(t1, bound.value)));
      DrainKeeps(w, t1, bound.value, issuer, {});
      GrowsTrans(t, t1, ProcessEscrows(t, bound, issuer, kel));
    }
  }

  // ----- where an event ends up --------------------------------------------------------------

  /** The event is in the log at its slot. */
  predicate InLog(t: Tables, e: Serder) {
    SlotOf(e) in t.tels && t.tels[SlotOf(e)] == e.said
  }

  /** What became of a processed event: logged; or else queued, if it is anchored and its predecessor is
      missing; or else waiting, if it has no anchor. */
  predicate Lands(t: Tables, e: Serder, done: bool) {
    if done then InLog(t, e)
    else if e.said in t.ancs then
      && SlotOf(e) !in t.tels && e.sn >= 1 && Slot(RegkOf(e), e.sn - 1) !in t.tels && e.said in Entries(t.ooes, SlotOf(e))
    else SlotOf(e) !in t.tels && e.said in Entries(t.maes, SlotOf(e))
  }

  lemma InLogGrows(t: Tables, t': Tables, e: Serder)
    requires InLog(t, e) && Grows(t, t')
    ensures InLog(t', e)
  {
  }

  lemma CommitInLog(t: Tables, e: Serder)
    requires SlotOf(e) !in t.tels
    ensures InLog(Commit(t, e), e)
  {
  }

  lemma DrainGrows(w: World, t: Tables, e: Serder, issuer: string, pending: set<Said>)
    requires Steady(w, t, pending, None) && w.doc(e.said) == e && Ready(w, t, e.said)
    ensures Grows(Commit(t, e), Drain(Commit(t, e), RegkOf(e), issuer))
  {
    LoggedKeeps(w, t, e, pending);
    DrainKeeps(w, Commit(t, e), RegkOf(e), issuer, pending);
  }

  lemma CommitLands(w: World, t: Tables, e: Serder, issuer: string, pending: set<Said>)
    requires Steady(w, t, pending, None) && w.doc(e.said) == e && Ready(w, t, e.said)
    ensures InLog(Drain(Commit(t, e), RegkOf(e), issuer), e)
  {
    DrainGrows(w, t, e, issuer, pending);
    CommitInLog(t, e);
    InLogGrows(Commit(t, e), Drain(Commit(t, e), RegkOf(e), issuer), e);
  }

  lemma RemovedReady(w: World, t: Tables, t': Tables, e: Serder, prior: Option<Serder>)
    requires Placeable(w, t, e, prior) && Pruned(t, t') && e.said in t.ancs && (e.ilk.Rip? || prior.Some?)
    ensures w.doc(e.said) == e && Ready(w, t', e.said)
  {
  }

  lemma SettledLands(w: World, t: Tables, e: Serder, prior: Option<Serder>, issuer: string, pending: set<Said>)
    requires Steady(w, t, pending, None) && Placeable(w, t, e, prior)
    ensures var o := Settle(Placed(t, e, prior), RegkOf(e), issuer);
            Lands(o.t, e, o.done) && (o.done <==> e.said in t.ancs && (e.ilk.Rip? || prior.Some?))
            && (!o.done ==> o.t.ancs == t.ancs)
  {
    if e.said in t.ancs && (e.ilk.Rip? || prior.Some?) {
      var t' := Step(t, MissingAnchorRemoved(SlotOf(e), e.said));
      RemovedKeeps(w, t, e.said, pending);
      RemovedReady(w, t, t', e, prior);
      CommitLands(w, t', e, issuer, pending - {e.said});
    }
  }

  /** An event is accepted exactly when it is already logged, or has an anchor, known or discoverable, and is
      an inception or follows a logged event; in every other case it is kept in the escrow of what it lacks. */
  lemma ProcessLands(w: World, t: Tables, bound: Option<Said>, issuer: string, kel: Kel, e: Serder, pending: set<Said>)
    requires Steady(w, t, pending, None) && Sound(w, kel) && w.doc(e.said) == e
    requires Process(t, bound, issuer, kel, e).Ok?
    ensures var o := Process(t, bound, issuer, kel, e).value;
            && Lands(o.t, e, o.done)
            && (o.done <==> InLog(t, e)
                            || ((e.said in t.ancs || Discovered(kel, e).Some?)
                                && (e.ilk.Rip? || Slot(RegkOf(e), e.sn - 1) in t.tels)))
  {
    var c := Validate(t, bound, issuer, e).value;
    ValidFree(w, t, bound, issuer, e);
    if c.existing.None? {
      var t1 := Stored(t, kel, e);
      StoredKeeps(w, t, kel, e, pending);
      ValidIsPlaceable(w, t, bound, issuer, e, t1);
      SettledLands(w, t1, e, c.prior, issuer, pending + {e.said});
    }
  }

  lemma AnchoredLands(w: World, t: Tables, bound: Option<Said>, issuer: string, kel: Kel, e: Serder, pending: set<Said>)
    requires Steady(w, t, pending, None) && Sound(w, kel) && w.doc(e.said) == e && e.said in t.ancs
    requires Process(t, bound, issuer, kel, e).Ok?
    ensures var o := Process(t, bound, issuer, kel, e).value;
            && Lands(o.t, e, o.done)
            && (o.done <==> InLog(t, e) || e.ilk.Rip? || Slot(RegkOf(e), e.sn - 1) in t.tels)
            && (!o.done ==> e.said in Entries(o.t.ooes, SlotOf(e)))
  {
    ProcessLands(w, t, bound, issuer, kel, e, pending);
    ProcessKeeps(w, t, bound, issuer, kel, e, pending);
    assert e.said in t.ancs.Keys;
  }

  lemma CoupledLands(w: World, t: Tables, bound: Option<Said>, issuer: string, kel: Kel, e: Serder,
                     couple: Option<Seal>, o: Outcome)
    requires Steady(w, t, {}, None) && Sound(w, kel) && e.said in t.evts && w.doc(e.said) == e
    requires !AnchorFault(t, kel, e, couple) && Process(Anchored(t, kel, e, couple), bound, issuer, kel, e) == Ok(o)
    ensures Lands(o.t, e, o.done)
    ensures o.done <==> InLog(t, e) || e.ilk.Rip? || Slot(RegkOf(e), e.sn - 1) in t.tels
    ensures !o.done ==> e.said in Entries(o.t.ooes, SlotOf(e))
  {
    AnchoredKeeps(w, t, kel, e, couple, {});
    AnchoredLands(w, Anchored(t, kel, e, couple), bound, issuer, kel, e, {} + {e.said});
  }

  /** An anchored message never goes back to the missing-anchor escrow. */
  lemma AnchorMsgLands(w: World, t: Tables, bound: Option<Said>, issuer: string, kel: Kel, e: Serder,
                       number: Option<nat>, dig: Option<string>, o: Outcome)
    requires Steady(w, t, {}, None) && Sound(w, kel) && e.said in t.evts && t.evts[e.said] == e
    requires AnchorMsg(t, bound, issuer, kel, e.said, number, dig) == Ok(o)
    ensures Lands(o.t, e, o.done)
    ensures o.done <==> InLog(t, e) || e.ilk.Rip? || Slot(RegkOf(e), e.sn - 1) in t.tels
    ensures !o.done ==> e.said in Entries(o.t.ooes, SlotOf(e))
  {
    AnchorMsgIs(t, bound, issuer, kel, e.said, number, dig, o);
    StoredIsGenuine(w, t, e.said);
    CoupledLands(w, t, bound, issuer, kel, e, CoupleOf(number, dig), o);
  }
}
