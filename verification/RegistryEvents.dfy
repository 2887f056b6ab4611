/** The issuer-side event engine: it validates registry events, finds their anchors, commits them in
    order, and replays the ones it had to put aside. */
module RegistryEvents {
  import opened Outcomes
  import opened KeyOrder
  import opened RegistryTables
  import opened RegistryRuns
  import opened RegistryStore
  import opened RegistryRules
  import opened RegistryInvariants
  import opened RegistryAnchors
  import opened RegistryDigest
  import opened P = RegistryProtocol

  class RegEventer {
    const store: Store
    const issuer: string
    ghost const world: World
    var regk: Option<Said>
    var regd: Option<Said>

    ghost function Now(): Tables
      reads store.baser
    {
      store.Now()
    }

    /** The state between two calls: the rules hold and nothing that could be committed is left behind. */
    ghost predicate Valid()
      reads store, store.baser
    {
      store.Valid() && Steady(world, Now(), {}, None)
    }

    /** The state inside a call: some anchored events may still wait, and one slot may be ready to advance. */
    ghost predicate Open(pending: set<Said>, hole: Option<Slot>)
      reads store, store.baser
    {
      store.Valid() && Steady(world, Now(), pending, hole)
    }

    constructor (s: Store, iss: string, ghost w: World, k: Option<Said>, d: Option<Said>)
      requires s.Valid() && Steady(w, s.Now(), {}, None)
      ensures store == s && issuer == iss && world == w && regk == k && regd == d && Valid()
    {
      store, issuer, world, regk, regd := s, iss, w, k, d;
    }

    // ----- helpers -----------------------------------------------------------------------------

    method ValidateEvent(e: Serder) returns (r: Result<Checked, Fault>)
      ensures r == Validate(Now(), regk, issuer, e)
    {
      if regk.None? && !e.ilk.Rip? {
        return Err(NoInception);
      }
      var fault := if e.ilk.Rip? then RipFault(e, issuer) else UpdateFault(e, regk.value, None);
      if fault.Some? {
        return Err(fault.value);
      }
      if regk.Some? && RegkOf(e) != regk.value {
        return Err(ForeignRegistry);
      }
      var existing := store.SeqEvent(SlotOf(e));
      if existing.Some? && existing.value.said != e.said {
        return Err(Conflict);
      }
      var prior: Option<Serder> := None;
      if !e.ilk.Rip? {
        prior := store.SeqEvent(Slot(RegkOf(e), e.sn - 1));
        if prior.Some? {
          var mismatch := UpdateFault(e, RegkOf(e), Some(prior.value.said));
          if mismatch.Some? {
            return Err(mismatch.value);
          }
        }
      }
      return Ok(Checked(existing, prior));
    }

    /** Looks for the anchor of an event unless one is known. */
    method DiscoverAnchor(e: Serder, kel: Kel) returns (found: bool)
      requires store.Valid()
      modifies store, store.baser
      ensures store.Valid() && Now() == Discover(old(Now()), kel, e)
      ensures found <==> e.said in old(Now().ancs) || (kel.find(e).Some? && kel.verify(e, kel.find(e).value))
      ensures found <==> e.said in Now().ancs
    {
      var known := store.Anchor(e.said);
      if known.Some? {
        return true;
      }
      var seal := kel.find(e);
      if seal.None? || !kel.verify(e, seal.value) {
        return false;
      }
      var _ := store.PutAnchor(e.said, seal.value);
      return true;
    }

    method EmptyMissing(slot: Slot)
      requires store.Valid()
      modifies store, store.baser
      ensures store.Valid() && Now() == old(Now()).(maes := EmptyAt(old(Now()).maes, slot))
    {
      var saids := Entries(store.baser.maes, slot);
      for i := 0 to |saids|
        invariant store.Valid() && Entries(Now().maes, slot) == saids[i..]
        invariant Now() == old(Now()).(maes := if i == 0 then old(Now()).maes else old(Now()).maes[slot := saids[i..]])
      {
        store.RemMissingAnchor(slot, saids[i]);
      }
    }

    method EmptyQueue(slot: Slot)
      requires store.Valid()
      modifies store, store.baser
      ensures store.Valid() && Now() == old(Now()).(ooes := EmptyAt(old(Now()).ooes, slot))
    {
      var saids := Entries(store.baser.ooes, slot);
      for i := 0 to |saids|
        invariant store.Valid() && Entries(Now().ooes, slot) == saids[i..]
        invariant Now() == old(Now()).(ooes := if i == 0 then old(Now()).ooes else old(Now()).ooes[slot := saids[i..]])
      {
        store.RemOutOfOrder(slot, saids[i]);
      }
    }

    /** Accepts an event and settles its slot. */
    method Commit(e: Serder)
      requires store.Valid()
      modifies this, store, store.baser
      ensures store.Valid() && Now() == P.Commit(old(Now()), e)
      ensures regk == Some(RegkOf(e)) && regd == Some(e.said)
    {
      store.Accept(SlotOf(e), e);
      EmptyMissing(SlotOf(e));
      EmptyQueue(SlotOf(e));
      regk, regd := Some(RegkOf(e)), Some(e.said);
    }

    /** Loads an escrowed event again; one that cannot be used any more is removed from its escrows. */
    method ReplayCandidate(said: Said, sn: nat) returns (r: Option<(Serder, Option<Serder>)>)
      requires store.Valid() && regk.Some?
      modifies store, store.baser
      ensures store.Valid() && (r.Some? <==> Replayable(old(Now()), regk, issuer, said))
      ensures r.Some? ==> Now() == old(Now()) && r.value.0 == Now().evts[said]
                          && r.value.1 == Validate(Now(), regk, issuer, r.value.0).value.prior
      ensures r.None? ==> Now() == Cleared(old(Now()), Slot(regk.value, sn), said)
    {
      var body := store.Event(said);
      if body.None? {
        store.ClearEscrows(Slot(regk.value, sn), said);
        return None;
      }
      NeverDangling(store.history);
      var checked := ValidateEvent(body.value);
      if checked.Err? || (checked.value.existing.Some? && checked.value.existing.value.said != said) {
        store.ClearEscrows(Slot(regk.value, sn), said);
        return None;
      }
      return Some((body.value, checked.value.prior));
    }

    /** The sequence number of the accepted head, or -1. */
    method Sn() returns (n: int)
      ensures n == if regk.Some? then HeadSn(Now(), regk.value) else -1
    {
      n := -1;
      if regk.Some? {
        var head := store.HeadEvent(regk.value);
        if head.Some? {
          n := head.value.sn;
        }
      }
    }

    // ----- the queue ---------------------------------------------------------------------------

    /** Commits the first ripe candidate of a slot. */
    method AdvanceSlot(slot: Slot, order: seq<Said>) returns (winner: Option<Said>)
      requires store.Valid() && regk == Some(slot.regk)
      modifies this, store, store.baser
      ensures store.Valid() && regk == Some(slot.regk)
      ensures (Now(), winner) == Advance(old(Now()), old(regk), issuer, slot, order)
      ensures if winner.Some? then AtHead(Now(), regk, regd) else regd == old(regd) && Now().heads == old(Now()).heads
    {
      for i := 0 to |order|
        invariant store.Valid() && regk == old(regk) && regd == old(regd)
        invariant Now().heads == old(Now()).heads
        invariant Advance(Now(), regk, issuer, slot, order[i..]) == Advance(old(Now()), regk, issuer, slot, order)
      {
        var said := order[i];
        assert order[i..][0] == said && order[i..][1..] == order[i + 1..];
        var replay := ReplayCandidate(said, slot.sn);
        if replay.Some? {
          var anchor := store.Anchor(said);
          if anchor.Some? && replay.value.1.Some? {
            Commit(replay.value.0);
            return Some(said);
          }
        }
      }
      return None;
    }

    /** Advances the log as far as the queue allows. */
    method ProcessQueued(ghost pending: set<Said>)
      requires store.Valid() && (regk.Some? ==> Open(pending, Some(NextOf(Now(), regk.value))))
      modifies this, store, store.baser
      ensures store.Valid() && regk == old(regk)
      ensures regk.None? ==> Now() == old(Now()) && regd == old(regd)
      ensures Follows(old(Now()), old(regd), Now(), regk, regd)
      ensures regk.Some? ==> Open(pending, None) && Now() == Drain(old(Now()), regk.value, issuer)
    {
      if regk.None? {
        return;
      }
      while true
        invariant regk == old(regk) && Open(pending, Some(NextOf(Now(), regk.value)))
        invariant Follows(old(Now()), old(regd), Now(), regk, regd)
        invariant Drain(Now(), regk.value, issuer) == Drain(old(Now()), regk.value, issuer)
        decreases |QueueSlots(Now())|
      {
        DrainStep(world, Now(), regk.value, issuer, pending);
        var sn := Sn();
        var slot := Slot(regk.value, sn + 1);
        var queued := Entries(store.baser.ooes, slot);
        if queued == [] {
          return;
        }
        var winner := AdvanceSlot(slot, ByWinner(store.baser.ancs, set s | s in queued));
        if winner.None? {
          return;
        }
      }
    }

    // ----- public calls ------------------------------------------------------------------------

    /** Takes a valid event as far as its anchor and its predecessor allow; one that is logged already is done. */
    method TakeEvent(e: Serder, kel: Kel, c: Checked, ghost pending: set<Said>) returns (done: bool)
      requires store.Valid() && regk == Some(RegkOf(e)) && CanDrain(world, Taken(Now(), kel, e, c), e, pending)
      modifies this, store, store.baser
      ensures store.Valid() && regk == Some(RegkOf(e))
      ensures Outcome(Now(), done) == if c.existing.Some? then Outcome(old(Now()), true)
                                      else Settle(Taken(old(Now()), kel, e, c), RegkOf(e), issuer)
      ensures if c.existing.Some? then regd == Some(c.existing.value.said)
              else if done then AtHead(Now(), regk, regd) else regd == old(regd)
    {
      if c.existing.Some? {
        regk, regd := Some(RegkOf(e)), Some(c.existing.value.said);
        return true;
      }
      var _ := store.PutEvent(e);
      var _ := DiscoverAnchor(e, kel);
      var anchor := store.Anchor(e.said);
      if anchor.None? {
        var _ := store.EscrowMissingAnchor(SlotOf(e), e.said);
        return false;
      }
      store.RemMissingAnchor(SlotOf(e), e.said);
      if e.ilk.Rip? {
        Commit(e);
        ProcessQueued(pending);
        return true;
      }
      if c.prior.None? {
        var _ := store.EscrowOutOfOrder(SlotOf(e), e.said);
        return false;
      }
      Commit(e);
      ProcessQueued(pending);
      return true;
    }

    /** Processes one event: refused when it is not valid, otherwise accepted or escrowed. */
    method ProcessEvent(e: Serder, kel: Kel, ghost pending: set<Said>) returns (r: Result<bool, Fault>)
      requires Open(pending, None) && Sound(world, kel) && world.doc(e.said) == e
      modifies this, store, store.baser
      ensures Open(if r.Ok? then pending - {e.said} else pending, None)
      ensures match Process(old(Now()), old(regk), issuer, kel, e)
              case Err(f) => r == Err(f) && Now() == old(Now()) && regk == old(regk) && regd == old(regd)
              case Ok(o) => r == Ok(o.done) && Now() == o.t && regk == Some(RegkOf(e))
      ensures r.Ok? ==> regd == NextRegd(old(Now()), old(regk), old(regd), e, Outcome(Now(), r.value))
      ensures r.Ok? ==>
                (AtHead(Now(), regk, regd) <==>
                 RegdHolds(old(Now()), old(regk), old(regd), e, HasSeal(old(Now()), kel, e)))
    {
      var checked := ValidateEvent(e);
      if checked.Err? {
        return Err(checked.error);
      }
      ProcessOpens(world, Now(), regk, issuer, kel, e, pending);
      RegdExact(world, Now(), regk, regd, issuer, kel, e, Process(Now(), regk, issuer, kel, e).value, pending);
      if regk.None? && e.ilk.Rip? {
        regk, regd := Some(RegkOf(e)), Some(e.said);
      }
      var done := TakeEvent(e, kel, checked.value, pending - {e.said});
      return Ok(done);
    }

    /** Looks for the anchor of an event, or checks the one that is given. */
    method RecordAnchor(e: Serder, couple: Option<Seal>, kel: Kel) returns (known: bool)
      requires store.Valid()
      modifies store, store.baser
      ensures store.Valid() && Now() == Anchored(old(Now()), kel, e, couple)
      ensures known <==> !AnchorFault(old(Now()), kel, e, couple)
      ensures known <==> if couple.Some? then kel.verify(e, couple.value)
                         else e.said in old(Now().ancs) || (kel.find(e).Some? && kel.verify(e, kel.find(e).value))
    {
      if couple.None? {
        var _ := DiscoverAnchor(e, kel);
      } else if !kel.verify(e, couple.value) {
        return false;
      } else {
        var _ := store.PutAnchor(e.said, couple.value);
      }
      var anchor := store.Anchor(e.said);
      return anchor.Some?;
    }

    /** The checks that come before the anchor is looked at. */
    method CheckMsg(said: Said, number: Option<nat>, dig: Option<string>) returns (r: Result<Serder, Fault>)
      ensures match AnchorRefusal(Now(), regk, issuer, said, number, dig)
              case Some(f) => r == Err(f)
              case None => r == Ok(Now().evts[said])
    {
      var body := store.Event(said);
      if body.None? {
        return Err(UnknownEvent);
      }
      var checked := ValidateEvent(body.value);
      if checked.Err? {
        return Err(checked.error);
      }
      if number.None? != dig.None? {
        return Err(HalfCouple);
      }
      return Ok(body.value);
    }

    /** Records the anchor of a valid stored event, unless it is faulty, and processes the event again. */
    method AnchorEvent(e: Serder, couple: Option<Seal>, kel: Kel) returns (r: Result<bool, Fault>)
      requires Valid() && Sound(world, kel) && e.said in Now().evts && world.doc(e.said) == e
      requires Validate(Now(), regk, issuer, e).Ok?
      modifies this, store, store.baser
      ensures Valid()
      ensures AnchorFault(old(Now()), kel, e, couple) ==>
                r == Err(InvalidAnchor) && Now() == old(Now()) && regk == old(regk) && regd == old(regd)
      ensures !AnchorFault(old(Now()), kel, e, couple) ==>
                var p := Process(Anchored(old(Now()), kel, e, couple), old(regk), issuer, kel, e);
                && p.Ok? && r == Ok(p.value.done) && Now() == p.value.t && regk == Some(RegkOf(e))
                && regd == NextRegd(old(Now()), old(regk), old(regd), e, p.value)
    {
      AnchorRuns(world, Now(), regk, issuer, kel, e, couple, regd);
      var known := RecordAnchor(e, couple, kel);
      if !known {
        return Err(InvalidAnchor);
      }
      ghost var sealed := Now();
      assert Process(sealed, regk, issuer, kel, e).Ok?;
      r := ProcessEvent(e, kel, {e.said});
      assert {e.said} - {e.said} == {};
    }

    /** Records and checks the anchor of a stored event, then processes the event again. */
    method AnchorMsg(said: Said, number: Option<nat>, dig: Option<string>, kel: Kel) returns (r: Result<bool, Fault>)
      requires Valid() && Sound(world, kel)
      modifies this, store, store.baser
      ensures Valid()
      ensures match P.AnchorMsg(old(Now()), old(regk), issuer, kel, said, number, dig)
              case Err(f) => r == Err(f) && Now() == old(Now()) && regk == old(regk) && regd == old(regd)
              case Ok(o) =>
                && r == Ok(o.done) && Now() == o.t && said in old(Now()).evts
                && regk == Some(RegkOf(old(Now()).evts[said]))
                && regd == NextRegd(old(Now()), old(regk), old(regd), old(Now()).evts[said], o)
                && (AtHead(Now(), regk, regd) <==> RegdHolds(old(Now()), old(regk), old(regd), old(Now()).evts[said], true))
    {
      var checked := CheckMsg(said, number, dig);
      if checked.Err? {
        return Err(checked.error);
      }
      StoredIsGenuine(world, Now(), said);
      ghost var p := P.AnchorMsg(Now(), regk, issuer, kel, said, number, dig);
      if p.Ok? {
        AnchorRegdExact(world, Now(), regk, regd, issuer, kel, checked.value, number, dig, p.value);
      }
      r := AnchorEvent(checked.value, CoupleOf(number, dig), kel);
    }

    // ----- the missing-anchor escrow -----------------------------------------------------------

    /** Replays the entries of one slot and looks for their anchors, collecting those still usable. */
    method GatherSlot(slot: Slot, saids: seq<Said>, kel: Kel) returns (usable: map<Said, Serder>)
      requires store.Valid() && regk == Some(slot.regk)
      modifies store, store.baser
      ensures store.Valid() && (Now(), usable) == Gather(old(Now()), regk, issuer, kel, slot, saids, map[])
    {
      usable := map[];
      for i := 0 to |saids|
        invariant store.Valid()
        invariant Gather(Now(), regk, issuer, kel, slot, saids[i..], usable)
               == Gather(old(Now()), regk, issuer, kel, slot, saids, map[])
      {
        assert saids[i..][0] == saids[i] && saids[i..][1..] == saids[i + 1..];
        NeverDangling(store.history);
        var replay := ReplayCandidate(saids[i], slot.sn);
        if replay.Some? {
          var _ := DiscoverAnchor(replay.value.0, kel);
          usable := usable[saids[i] := replay.value.0];
        }
      }
    }

    /** Processes one usable event; if it fails to validate it is dropped. */
    method RetryOne(slot: Slot, usable: map<Said, Serder>, said: Said, kel: Kel, ghost pending: set<Said>)
      requires Open(pending, None) && Sound(world, kel) && regk == Some(slot.regk)
      requires Usable(world, Now(), slot, usable) && said in usable && !InLog(Now(), usable[said])
      modifies this, store, store.baser
      ensures Open(pending - {said}, None) && regk == Some(slot.regk) && Usable(world, Now(), slot, usable)
      ensures Now() == Retried(old(Now()), old(regk), issuer, kel, slot, usable[said], said)
      ensures Follows(old(Now()), old(regd), Now(), regk, regd)
    {
      RetryOpens(world, Now(), regk, issuer, kel, slot, usable, said, pending);
      RetryFollows(world, Now(), regk, regd, issuer, kel, usable[said], pending);
      var r := ProcessEvent(usable[said], kel, pending);
      if r.Err? {
        store.ClearEscrows(slot, said);
      }
    }

    /** Processes the usable events of one slot, the one with the earliest anchor first. */
    method RetryUsable(slot: Slot, usable: map<Said, Serder>, kel: Kel)
      requires Open(usable.Keys, None) && Sound(world, kel) && regk == Some(slot.regk)
      requires Usable(world, Now(), slot, usable) && forall s | s in usable :: !InLog(Now(), usable[s])
      modifies this, store, store.baser
      ensures Valid() && regk == Some(slot.regk) && Follows(old(Now()), old(regd), Now(), regk, regd)
      ensures Now() == Retry(old(Now()), Some(slot.regk), issuer, kel, slot, usable,
                             ByWinner(old(Now()).ancs, usable.Keys))
    {
      var order := ByWinner(store.baser.ancs, usable.Keys);
      ghost var pending := usable.Keys;
      for i := 0 to |order|
        invariant Open(pending, None) && (forall s | s in pending :: s in order[i..])
        invariant regk == Some(slot.regk) && Usable(world, Now(), slot, usable) && Unlogged(Now(), usable, order[i..])
        invariant Follows(old(Now()), old(regd), Now(), regk, regd)
        invariant Retry(Now(), Some(slot.regk), issuer, kel, slot, usable, order[i..])
               == Retry(old(Now()), Some(slot.regk), issuer, kel, slot, usable, order)
      {
        assert order[i..][0] == order[i] && order[i..][1..] == order[i + 1..];
        WinnersDiffer(old(Now()).ancs, order, i);
        OthersUnlogged(world, Now(), regk, issuer, kel, slot, usable, order[i..], pending);
        RetryOne(slot, usable, order[i], kel, pending);
        pending := pending - {order[i]};
      }
      assert pending == {};
    }

    /** Replays what waits at one slot: first every entry looks for its anchor, then they compete in winner order. */
    method RetryEscrowed(slot: Slot, saids: seq<Said>, kel: Kel)
      requires Valid() && Sound(world, kel) && regk == Some(slot.regk)
      requires Due(world, Now(), slot, saids)
      modifies this, store, store.baser
      ensures Valid() && regk == Some(slot.regk) && Follows(old(Now()), old(regd), Now(), regk, regd)
      ensures Now() == RetrySlot(old(Now()), slot.regk, issuer, kel, slot, saids)
    {
      GatherOpens(world, Now(), regk, issuer, kel, slot, saids);
      var usable := GatherSlot(slot, saids, kel);
      RetryUsable(slot, usable, kel);
    }

    /** Looks again for the anchors of escrowed events, sequence number by sequence number. */
    method ProcessMissingAnchors(kel: Kel)
      requires Valid() && Sound(world, kel)
      modifies this, store, store.baser
      ensures Valid() && regk == old(regk) && Follows(old(Now()), old(regd), Now(), regk, regd)
      ensures Now() == if regk.None? then old(Now())
                       else RetryAll(old(Now()), regk.value, issuer, kel, old(Now()).maes,
                                     EscrowedSns(old(Now()).maes, regk.value))
    {
      if regk.None? {
        return;
      }
      var maes := store.baser.maes;
      MissingHome(world, Now());
      var sns := EscrowedSns(maes, regk.value);
      NoneVisited(Now(), regk.value, sns);
      for i := 0 to |sns|
        invariant Valid() && regk == old(regk) && Unvisited(Now(), regk.value, maes, sns[i..])
        invariant Follows(old(Now()), old(regd), Now(), regk, regd)
        invariant RetryAll(Now(), regk.value, issuer, kel, maes, sns[i..])
               == RetryAll(old(Now()), regk.value, issuer, kel, maes, sns)
      {
        assert sns[i..][0] == sns[i] && sns[i..][1..] == sns[i + 1..];
        var slot := Slot(regk.value, sns[i]);
        NextTurn(world, Now(), regk.value, issuer, kel, maes, sns, i);
        RetryEscrowed(slot, Entries(maes, slot), kel);
      }
    }

    /** One pass over the escrows of the registry. */
    method ProcessEscrows(kel: Kel)
      requires Valid() && Sound(world, kel)
      modifies this, store, store.baser
      ensures Valid() && regk == old(regk) && Now() == P.ProcessEscrows(old(Now()), regk, issuer, kel)
      ensures Follows(old(Now()), old(regd), Now(), regk, regd)
    {
      ProcessMissingAnchors(kel);
      if regk.Some? {
        QuietWeaker(Now(), Some(NextOf(Now(), regk.value)));
      }
      ProcessQueued({});
    }
  }

  /** A valid event before the queue is drained behind it. */
  function Taken(t: Tables, kel: Kel, e: Serder, c: Checked): Outcome {
    if c.existing.Some? then Outcome(t, false) else Placed(Stored(t, kel, e), e, c.prior)
  }

  ghost predicate CanDrain(w: World, o: Outcome, e: Serder, pending: set<Said>) {
    o.done ==> Steady(w, o.t, pending, Some(NextOf(o.t, RegkOf(e))))
  }

  /** One pass of the draining loop. */
  lemma DrainStep(w: World, t: Tables, regk: Said, issuer: string, pending: set<Said>)
    requires Steady(w, t, pending, Some(NextOf(t, regk)))
    ensures var (t', winner) := Contest(t, regk, issuer);
            if Entries(t.ooes, NextOf(t, regk)) == [] then Drain(t, regk, issuer) == t && Steady(w, t, pending, None)
            else if winner.None? then Drain(t, regk, issuer) == t' && Steady(w, t', pending, None)
            else && Drain(t, regk, issuer) == Drain(t', regk, issuer) && |QueueSlots(t')| < |QueueSlots(t)|
                 && Steady(w, t', pending, Some(NextOf(t', regk)))
  {
    DrainKeeps(w, t, regk, issuer, pending);
    ContestKeeps(w, t, regk, issuer, pending);
    ContestShrinks(w, t, regk, issuer);
  }

  /** What a call needs of a valid event: the log may be drained behind it, and the rules hold afterwards. */
  lemma ProcessOpens(w: World, t: Tables, bound: Option<Said>, issuer: string, kel: Kel, e: Serder, pending: set<Said>)
    requires Steady(w, t, pending, None) && Sound(w, kel) && w.doc(e.said) == e
    requires Validate(t, bound, issuer, e).Ok?
    ensures Steady(w, Process(t, bound, issuer, kel, e).value.t, pending - {e.said}, None)
    ensures var c := Validate(t, bound, issuer, e).value;
            && (c.existing.Some? <==> InLog(t, e))
            && (c.existing.Some? ==> c.existing.value.said == e.said)
            && CanDrain(w, Taken(t, kel, e, c), e, pending - {e.said})
  {
    ProcessKeeps(w, t, bound, issuer, kel, e, pending);
    TakenOpens(w, t, bound, issuer, kel, e, pending);
  }

  lemma TakenOpens(w: World, t: Tables, bound: Option<Said>, issuer: string, kel: Kel, e: Serder, pending: set<Said>)
    requires Steady(w, t, pending, None) && Sound(w, kel) && w.doc(e.said) == e
    requires Validate(t, bound, issuer, e).Ok?
    ensures var c := Validate(t, bound, issuer, e).value;
            && (c.existing.Some? <==> InLog(t, e))
            && (c.existing.Some? ==> c.existing.value.said == e.said)
            && CanDrain(w, Taken(t, kel, e, c), e, pending - {e.said})
  {
    ValidFree(w, t, bound, issuer, e);
    var c := Validate(t, bound, issuer, e).value;
    if c.existing.None? && Placed(Stored(t, kel, e), e, c.prior).done {
      PlacedOpens(w, t, bound, issuer, kel, e, pending);
    }
  }

  lemma AnchorOpens(w: World, t: Tables, bound: Option<Said>, issuer: string, kel: Kel, e: Serder, couple: Option<Seal>)
    requires Steady(w, t, {}, None) && Sound(w, kel) && e.said in t.evts && w.doc(e.said) == e
    ensures var t' := Anchored(t, kel, e, couple);
            && Steady(w, t', {e.said}, None) && (AnchorFault(t, kel, e, couple) ==> t' == t)
            && t'.tels == t.tels && Validate(t', bound, issuer, e) == Validate(t, bound, issuer, e)
  {
    var t' := Anchored(t, kel, e, couple);
    AnchoredKeeps(w, t, kel, e, couple, {});
    WaitingMono(t', {} + {e.said}, {e.said});
    SameLogSameVerdict(t, t', bound, issuer, e);
  }

  /** The anchor is recorded, or faulty and then nothing is changed; processing the event after that cannot fail. */
  lemma AnchorRuns(w: World, t: Tables, bound: Option<Said>, issuer: string, kel: Kel, e: Serder, couple: Option<Seal>,
                   regd: Option<Said>)
    requires Steady(w, t, {}, None) && Sound(w, kel) && e.said in t.evts && w.doc(e.said) == e
    requires Validate(t, bound, issuer, e).Ok?
    ensures var t' := Anchored(t, kel, e, couple);
            && Steady(w, t', {e.said}, None) && (AnchorFault(t, kel, e, couple) ==> t' == t)
            && var r := Process(t', bound, issuer, kel, e);
               r.Ok? && NextRegd(t', bound, regd, e, r.value) == NextRegd(t, bound, regd, e, r.value)
  {
    var t' := Anchored(t, kel, e, couple);
    AnchorOpens(w, t, bound, issuer, kel, e, couple);
    ValidIsProcessed(t, t', bound, issuer, kel, e);
    SameLogSameRegd(t, t', bound, regd, e, Process(t', bound, issuer, kel, e).value);
  }

  lemma ValidIsProcessed(t: Tables, t': Tables, bound: Option<Said>, issuer: string, kel: Kel, e: Serder)
    requires Validate(t, bound, issuer, e).Ok? && Validate(t', bound, issuer, e) == Validate(t, bound, issuer, e)
    ensures Process(t', bound, issuer, kel, e).Ok?
  {
  }

  lemma SameLogSameVerdict(t: Tables, t': Tables, bound: Option<Said>, issuer: string, e: Serder)
    requires t'.tels == t.tels && t'.evts == t.evts
    ensures Validate(t', bound, issuer, e) == Validate(t, bound, issuer, e)
  {
  }

  lemma RetryOpens(w: World, t: Tables, bound: Option<Said>, issuer: string, kel: Kel, slot: Slot,
                   usable: map<Said, Serder>, s: Said, pending: set<Said>)
    requires Steady(w, t, pending, None) && Sound(w, kel) && Usable(w, t, slot, usable) && s in usable
    ensures usable[s].said == s && w.doc(s) == usable[s] && SlotOf(usable[s]) == slot
    ensures match Process(t, bound, issuer, kel, usable[s])
            case Ok(o) => Usable(w, o.t, slot, usable)
            case Err(_) => && Usable(w, Cleared(t, slot, s), slot, usable)
                           && Steady(w, Cleared(t, slot, s), pending - {s}, None)
  {
    ClearedKeeps(w, t, slot, s, pending);
    if Process(t, bound, issuer, kel, usable[s]).Ok? {
      ProcessKeeps(w, t, bound, issuer, kel, usable[s], pending);
    }
  }

  lemma RetryFollows(w: World, t: Tables, bound: Option<Said>, regd: Option<Said>, issuer: string, kel: Kel, e: Serder,
                    pending: set<Said>)
    requires Steady(w, t, pending, None) && Sound(w, kel) && w.doc(e.said) == e && !InLog(t, e)
    ensures var r := Process(t, bound, issuer, kel, e);
            r.Ok? && bound == Some(RegkOf(e)) ==> Follows(t, regd, r.value.t, bound, NextRegd(t, bound, regd, e, r.value))
  {
    var r := Process(t, bound, issuer, kel, e);
    if r.Ok? && bound == Some(RegkOf(e)) {
      ProcessKeeps(w, t, bound, issuer, kel, e, pending);
      ProcessLands(w, t, bound, issuer, kel, e, pending);
      ProcessFollows(w, t, bound, regd, issuer, kel, e, r.value);
    }
  }

  /** Gathering leaves events of the slot that are not in the log. */
  lemma GatherOpens(w: World, t: Tables, bound: Option<Said>, issuer: string, kel: Kel, slot: Slot, saids: seq<Said>)
    requires Steady(w, t, {}, None) && Sound(w, kel) && Due(w, t, slot, saids)
    ensures var (t', usable) := Gather(t, bound, issuer, kel, slot, saids, map[]);
            Steady(w, t', usable.Keys, None) && Usable(w, t', slot, usable) && t'.heads == t.heads
            && forall s | s in usable :: !InLog(t', usable[s])
  {
    var (t', usable) := Gather(t, bound, issuer, kel, slot, saids, map[]);
    GatherSteady(w, t, bound, issuer, kel, slot, saids, t', usable);
    GatherAdds(w, t, bound, issuer, kel, slot, saids, map[], set s | s in saids);
    forall s | s in usable ensures !InLog(t', usable[s]) {
      UnanchoredIsUnlogged(w, t, slot, s);
    }
  }

  lemma WinnersDiffer(ancs: map<Said, Seal>, order: seq<Said>, i: nat)
    requires SortedBy(Winners(ancs), order) && i < |order|
    ensures order[i] !in order[i + 1..]
  {
    if order[i] in order[i + 1..] {
      var j :| i < j < |order| && order[j] == order[i];
      assert Winners(ancs)(order[i], order[j]);
      WinnerAsymmetric(ancs, order[i], order[j]);
    }
  }
}
