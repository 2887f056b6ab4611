/** A whole pass over the escrows of a registry: what the log comes to, told from the tables before it. */
module Sweeps {
  import opened Outcomes
  import opened KeyOrder
  import opened RegistryTables
  import opened RegistryStore
  import opened RegistryRules
  import opened RegistryProtocol
  import opened RegistryInvariants
  import opened RegistryAnchors
  import opened Arbitration

  /** A pass over the escrows, with the tables as they are before it. */
  datatype Sweep = Sweep(t: Tables, regk: Said, issuer: string, kel: Kel)

  function QueueWinner(p: Sweep, n: nat, below: Option<Said>): Option<Said> {
    First(p.t.ancs, Contenders(p.t, p.issuer, Entries(p.t.ooes, Slot(p.regk, n)), below))
  }

  function EscrowWinner(p: Sweep, n: nat, below: Option<Said>): Option<Said> {
    First(Seen(p.t, p.kel), Contenders(p.t, p.issuer, Entries(p.t.maes, Slot(p.regk, n)), below))
  }

  /** Who takes a free slot n above an event that is logged: the queue's winner or, when nothing queued continues the log
      there, the winner of the missing-anchor escrow. */
  function Winner(p: Sweep, n: nat, below: Option<Said>): Option<Said> {
    if QueueWinner(p, n, below).Some? then QueueWinner(p, n, below) else EscrowWinner(p, n, below)
  }

  /** What slot n holds after the pass, when the slot below it holds `below`: a logged slot stays as it is, and a free one
      above a filled one goes to its winner. */
  function Fills(p: Sweep, n: nat, below: Option<Said>): Option<Said> {
    if Slot(p.regk, n) in p.t.tels then Some(p.t.tels[Slot(p.regk, n)])
    else if n > 0 && below.None? then None
    else Winner(p, n, below)
  }

  /** The log after the pass. */
  function Takes(p: Sweep, n: nat): Option<Said> {
    Fills(p, n, if n == 0 then None else Takes(p, n - 1))
  }

  function EntryAt(t: Tables, regk: Said, n: nat): Option<Said> {
    if Slot(regk, n) in t.tels then Some(t.tels[Slot(regk, n)]) else None
  }

  // ----- the course of the pass --------------------------------------------------------------

  function Under(log: seq<Said>, n: nat): Option<Said>
    requires n <= |log|
  {
    if n == 0 then None else Some(log[n - 1])
  }

  /** The entry at n is the one that fills the slot above the entry below it. */
  predicate Told(p: Sweep, log: seq<Said>, n: nat)
    requires n < |log|
  {
    Fills(p, n, Under(log, n)) == Some(log[n])
  }

  predicate Foretold(p: Sweep, log: seq<Said>) {
    forall n | 0 <= n < |log| :: Told(p, log, n)
  }

  /** The registry's log is the given sequence. */
  predicate LogIs(t: Tables, regk: Said, log: seq<Said>) {
    && Slot(regk, |log|) !in t.tels
    && forall n | 0 <= n < |log| :: Slot(regk, n) in t.tels && t.tels[Slot(regk, n)] == log[n]
  }

  /** Nothing is lost, and every anchor is as it was. */
  ghost predicate Since(p: Sweep, t: Tables) {
    Grows(p.t, t) && forall s | s in p.t.ancs :: s in t.ancs && t.ancs[s] == p.t.ancs[s]
  }

  /** The queues of slot n and of those above it are untouched. */
  ghost predicate QueuesFrom(p: Sweep, t: Tables, n: nat) {
    forall m: nat | m >= n :: Entries(t.ooes, Slot(p.regk, m)) == Entries(p.t.ooes, Slot(p.regk, m))
  }

  /** Only the queue of the slot itself may have changed. */
  ghost predicate Elsewhere(t: Tables, t': Tables, slot: Slot) {
    forall other | other != slot :: Entries(t'.ooes, other) == Entries(t.ooes, other)
  }

  /** The tables so far: nothing is lost, and the log is as foretold. */
  ghost predicate Abreast(p: Sweep, t: Tables, log: seq<Said>) {
    Since(p, t) && LogIs(t, p.regk, log) && Foretold(p, log)
  }

  lemma FrontierIsNext(w: World, t: Tables, regk: Said, log: seq<Said>)
    requires Bodies(w, t) && Log(w, t) && Heads(w, t) && LogIs(t, regk, log)
    ensures NextOf(t, regk) == Slot(regk, |log|) && Vacant(t, Slot(regk, |log|))
    ensures Below(t, Slot(regk, |log|)) == Under(log, |log|)
  {
    var top := NextOf(t, regk);
    HeadExact(w, t, regk);
    if top.sn > |log| {
      BelowLogged(w, t, regk, top.sn - 1, |log|);
    }
  }

  lemma SameContenders(p: Sweep, t: Tables, saids: seq<Said>, below: Option<Said>)
    requires Since(p, t) && forall s | s in saids :: s in p.t.evts
    ensures Contenders(t, p.issuer, saids, below) == Contenders(p.t, p.issuer, saids, below)
  {
    assert forall s | s in saids :: s in t.evts && t.evts[s] == p.t.evts[s];
  }

  /** At the end of the log so far the queue's winner is as foretold. */
  lemma QueueAtFrontier(w: World, p: Sweep, t: Tables, n: nat, below: Option<Said>)
    requires Core(w, p.t) && Since(p, t) && QueuesFrom(p, t, n)
    ensures First(t.ancs, Contenders(t, p.issuer, Entries(t.ooes, Slot(p.regk, n)), below)) == QueueWinner(p, n, below)
  {
    var queue := Entries(p.t.ooes, Slot(p.regk, n));
    forall s | s in queue ensures s in p.t.evts && s in p.t.ancs {
      assert Escrowed(w, p.t, Slot(p.regk, n), s);
    }
    SameContenders(p, t, queue, below);
    var rivals := Contenders(p.t, p.issuer, queue, below);
    SameFirst(p.t.ancs, rivals, t.ancs, rivals);
  }

  lemma {:induction false} AdvanceElsewhere(t: Tables, bound: Option<Said>, issuer: string, slot: Slot, order: seq<Said>)
    requires forall s | s in order && s in t.evts :: SlotOf(t.evts[s]) == slot
    ensures Elsewhere(t, Advance(t, bound, issuer, slot, order).0, slot)
    decreases |order|
  {
    if order != [] {
      AdvanceElsewhere(Cleared(t, slot, order[0]), bound, issuer, slot, order[1..]);
      AdvanceElsewhere(t, bound, issuer, slot, order[1..]);
    }
  }

  lemma ContestElsewhere(w: World, t: Tables, regk: Said, issuer: string)
    requires Core(w, t)
    ensures var t' := Contest(t, regk, issuer).0;
            Elsewhere(t, t', NextOf(t, regk)) && t'.ancs == t.ancs
  {
    var slot := NextOf(t, regk);
    var order := ByWinner(t.ancs, set s | s in Entries(t.ooes, slot));
    forall s | s in order && s in t.evts ensures SlotOf(t.evts[s]) == slot {
      QueuedIsContested(w, t, regk, s);
      StoredIsGenuine(w, t, s);
    }
    AdvanceElsewhere(t, Some(regk), issuer, slot, order);
    AdvanceAnchors(t, Some(regk), issuer, slot, order);
  }

  lemma SinceGrows(p: Sweep, t: Tables, t': Tables)
    requires Since(p, t) && Grows(t, t') && forall s | s in t.ancs :: s in t'.ancs && t'.ancs[s] == t.ancs[s]
    ensures Since(p, t')
  {
    GrowsTrans(p.t, t, t');
  }

  lemma LogIsMore(w: World, t: Tables, t': Tables, regk: Said, log: seq<Said>, s: Said)
    requires Log(w, t) && LogIs(t, regk, log) && t'.tels == t.tels[Slot(regk, |log|) := s]
    ensures LogIs(t', regk, log + [s])
  {
    NothingAbove(w, t, Slot(regk, |log|));
  }

  lemma ForetoldMore(p: Sweep, log: seq<Said>, s: Said)
    requires Foretold(p, log) && Slot(p.regk, |log|) !in p.t.tels && Winner(p, |log|, Under(log, |log|)) == Some(s)
    ensures Foretold(p, log + [s])
  {
    forall n | 0 <= n < |log| + 1 ensures Told(p, log + [s], n) {
      assert n < |log| ==> Told(p, log, n);
      assert Under(log + [s], n) == Under(log, n);
    }
  }

  /** The next slot is filled as foretold. */
  lemma AbreastMore(w: World, p: Sweep, t: Tables, t': Tables, log: seq<Said>, s: Said)
    requires Log(w, t) && Abreast(p, t, log) && Since(p, t') && t'.tels == t.tels[Slot(p.regk, |log|) := s]
    requires Winner(p, |log|, Under(log, |log|)) == Some(s)
    ensures Abreast(p, t', log + [s])
  {
    LogIsMore(w, t, t', p.regk, log, s);
    ForetoldMore(p, log, s);
  }

  /** A contest at the end of the log commits the queue's winner, as foretold. */
  lemma ContestTakes(w: World, p: Sweep, t: Tables, log: seq<Said>)
    requires Core(w, p.t) && Core(w, t) && Lists(t) && Abreast(p, t, log) && QueuesFrom(p, t, |log|)
    ensures var (t', winner) := Contest(t, p.regk, p.issuer);
            && winner == QueueWinner(p, |log|, Under(log, |log|)) && QueuesFrom(p, t', |log| + 1)
            && t'.tels == (if winner.Some? then t.tels[Slot(p.regk, |log|) := winner.value] else t.tels)
            && (Entries(t.ooes, NextOf(t, p.regk)) == [] ==> winner.None?)
  {
    FrontierIsNext(w, t, p.regk, log);
    QueueAtFrontier(w, p, t, |log|, Under(log, |log|));
    ContestFirst(w, t, p.regk, p.issuer);
    ContestCommits(w, t, p.regk, p.issuer);
    ContestElsewhere(w, t, p.regk, p.issuer);
    EmptyHasNoFirst(t.ancs, t, p.issuer, Under(log, |log|));
  }

  lemma EmptyHasNoFirst(ancs: map<Said, Seal>, t: Tables, issuer: string, below: Option<Said>)
    ensures First(ancs, Contenders(t, issuer, [], below)).None?
  {
    NoFirst(ancs, Contenders(t, issuer, [], below));
  }

  lemma ContestSince(w: World, p: Sweep, t: Tables, pending: set<Said>)
    requires Steady(w, t, pending, Some(NextOf(t, p.regk))) && Since(p, t)
    ensures Since(p, Contest(t, p.regk, p.issuer).0)
  {
    ContestKeeps(w, t, p.regk, p.issuer, pending);
    ContestElsewhere(w, t, p.regk, p.issuer);
    SinceGrows(p, t, Contest(t, p.regk, p.issuer).0);
  }

  lemma DrainUnfolds(w: World, t: Tables, regk: Said, issuer: string, pending: set<Said>)
    requires Steady(w, t, pending, Some(NextOf(t, regk)))
    ensures var (t', winner) := Contest(t, regk, issuer);
            if Entries(t.ooes, NextOf(t, regk)) == [] then Drain(t, regk, issuer) == t
            else if winner.None? then Drain(t, regk, issuer) == t'
            else && Drain(t, regk, issuer) == Drain(t', regk, issuer) && |QueueSlots(t')| < |QueueSlots(t)|
                 && Steady(w, t', pending, Some(NextOf(t', regk)))
  {
    ContestKeeps(w, t, regk, issuer, pending);
    ContestShrinks(w, t, regk, issuer);
  }

  /** One contest: the winner, if there is one, extends the log. */
  lemma AbreastAfter(w: World, p: Sweep, t: Tables, t': Tables, log: seq<Said>, winner: Option<Said>)
    requires Log(w, t) && Abreast(p, t, log) && Since(p, t') && winner == QueueWinner(p, |log|, Under(log, |log|))
    requires t'.tels == if winner.Some? then t.tels[Slot(p.regk, |log|) := winner.value] else t.tels
    ensures Abreast(p, t', Longer(log, winner))
  {
    if winner.Some? {
      AbreastMore(w, p, t, t', log, winner.value);
    }
  }

  function Longer(log: seq<Said>, winner: Option<Said>): seq<Said> {
    if winner.Some? then log + [winner.value] else log
  }

  lemma ContestAbreast(w: World, p: Sweep, t: Tables, log: seq<Said>, pending: set<Said>)
    requires Core(w, p.t) && Steady(w, t, pending, Some(NextOf(t, p.regk)))
    requires Abreast(p, t, log) && QueuesFrom(p, t, |log|)
    ensures var (t', winner) := Contest(t, p.regk, p.issuer);
            && winner == QueueWinner(p, |log|, Under(log, |log|)) && QueuesFrom(p, t', |log| + 1)
            && Abreast(p, t', Longer(log, winner))
            && (Entries(t.ooes, NextOf(t, p.regk)) == [] ==> winner.None?)
  {
    var (t', winner) := Contest(t, p.regk, p.issuer);
    ContestTakes(w, p, t, log);
    ContestSince(w, p, t, pending);
    AbreastAfter(w, p, t, t', log, winner);
  }

  /** Draining keeps pace, and stops where nothing queued continues the log. */
  lemma {:induction false} DrainTakes(w: World, p: Sweep, t: Tables, log: seq<Said>, pending: set<Said>)
    returns (more: seq<Said>)
    requires Core(w, p.t) && Steady(w, t, pending, Some(NextOf(t, p.regk)))
    requires Abreast(p, t, log) && QueuesFrom(p, t, |log|)
    ensures var t' := Drain(t, p.regk, p.issuer);
            && log <= more && Abreast(p, t', more) && QueuesFrom(p, t', |more| + 1)
            && QueueWinner(p, |more|, Under(more, |more|)).None?
    decreases |QueueSlots(t)|
  {
    var (t', winner) := Contest(t, p.regk, p.issuer);
    DrainUnfolds(w, t, p.regk, p.issuer, pending);
    ContestAbreast(w, p, t, log, pending);
    if winner.Some? {
      more := DrainTakes(w, p, t', Longer(log, winner), pending);
    } else {
      more := log;
    }
  }

  // ----- one slot's turn ---------------------------------------------------------------------

  /** Where the pass stands before the turn of slot c: the log is as foretold; its end is behind c and stays, or is at c
      or beyond it and the queues behind it are untouched. */
  ghost predicate Course(w: World, p: Sweep, t: Tables, c: nat, log: seq<Said>) {
    && Steady(w, t, {}, None) && Abreast(p, t, log) && QueueWinner(p, |log|, Under(log, |log|)).None?
    && if |log| < c then Winner(p, |log|, Under(log, |log|)).None? else QueuesFrom(p, t, |log| + 1)
  }

  /** Slots without entries have no turn. */
  lemma SkipTo(w: World, p: Sweep, t: Tables, c: nat, d: nat, log: seq<Said>)
    requires Course(w, p, t, c, log) && c <= d
    requires forall m: nat | c <= m < d :: Entries(p.t.maes, Slot(p.regk, m)) == []
    ensures Course(w, p, t, d, log)
  {
    if c <= |log| < d {
      EmptyHasNoFirst(Seen(p.t, p.kel), p.t, p.issuer, Under(log, |log|));
    }
  }

  function Turn(p: Sweep, t: Tables, c: nat): Tables {
    RetrySlot(t, p.regk, p.issuer, p.kel, Slot(p.regk, c), Entries(p.t.maes, Slot(p.regk, c)))
  }

  lemma TurnSince(w: World, p: Sweep, t: Tables, c: nat)
    requires Steady(w, t, {}, None) && Sound(w, p.kel) && Home(w, p.t.maes) && Since(p, t)
    ensures Steady(w, Turn(p, t, c), {}, None) && Since(p, Turn(p, t, c))
  {
    var slot := Slot(p.regk, c);
    var saids := Entries(p.t.maes, slot);
    assert forall s | s in saids :: SlotOf(w.doc(s)) == slot;
    RetrySlotKeeps(w, t, p.regk, p.issuer, p.kel, slot, saids);
    RetrySlotAdds(w, t, p.regk, p.issuer, p.kel, slot, saids);
    SinceGrows(p, t, Turn(p, t, c));
  }

  /** With the slot below free, nothing of this slot is logged. */
  lemma {:induction false} RetryWaits(t: Tables, bound: Option<Said>, issuer: string, kel: Kel, slot: Slot,
                                      usable: map<Said, Serder>, order: seq<Said>)
    requires slot.sn > 0 && slot !in t.tels && Slot(slot.regk, slot.sn - 1) !in t.tels
    requires forall s | s in order :: s in usable && SlotOf(usable[s]) == slot
    ensures Retry(t, bound, issuer, kel, slot, usable, order).tels == t.tels
    decreases |order|
  {
    if order != [] {
      RetriedWaits(t, bound, issuer, kel, slot, usable[order[0]], order[0]);
      RetryWaits(Retried(t, bound, issuer, kel, slot, usable[order[0]], order[0]), bound, issuer, kel, slot, usable, order[1..]);
    }
  }

  lemma RetriedWaits(t: Tables, bound: Option<Said>, issuer: string, kel: Kel, slot: Slot, e: Serder, said: Said)
    requires SlotOf(e) == slot && slot.sn > 0 && slot !in t.tels && Slot(slot.regk, slot.sn - 1) !in t.tels
    ensures Retried(t, bound, issuer, kel, slot, e, said).tels == t.tels
  {
    if Validate(t, bound, issuer, e).Ok? {
      ValidWaits(t, bound, issuer, e);
      PlacedWaits(Stored(t, kel, e), e);
    }
  }

  lemma ValidWaits(t: Tables, bound: Option<Said>, issuer: string, e: Serder)
    requires Validate(t, bound, issuer, e).Ok? && e.sn > 0
    requires SlotOf(e) !in t.tels && Slot(RegkOf(e), e.sn - 1) !in t.tels
    ensures !e.ilk.Rip? && Validate(t, bound, issuer, e) == Ok(Checked(None, None))
  {
  }

  lemma PlacedWaits(t: Tables, e: Serder)
    requires !e.ilk.Rip?
    ensures !Placed(t, e, None).done && Placed(t, e, None).t.tels == t.tels
  {
  }

  /** At a filled slot nothing is logged either, and only entries of that slot go. */
  lemma {:induction false} RetryDecided(t: Tables, bound: Option<Said>, issuer: string, kel: Kel, slot: Slot,
                                        usable: map<Said, Serder>, order: seq<Said>)
    requires Logged(t, slot).Some? && forall s | s in order :: s in usable && SlotOf(usable[s]) == slot
    ensures var t' := Retry(t, bound, issuer, kel, slot, usable, order); t'.tels == t.tels && Elsewhere(t, t', slot)
    decreases |order|
  {
    if order != [] {
      var t1 := Retried(t, bound, issuer, kel, slot, usable[order[0]], order[0]);
      RetriedDecided(t, bound, issuer, kel, slot, usable[order[0]], order[0]);
      RetryDecided(t1, bound, issuer, kel, slot, usable, order[1..]);
    }
  }

  lemma RetriedDecided(t: Tables, bound: Option<Said>, issuer: string, kel: Kel, slot: Slot, e: Serder, said: Said)
    requires Logged(t, slot).Some? && SlotOf(e) == slot
    ensures var t' := Retried(t, bound, issuer, kel, slot, e, said);
            t'.tels == t.tels && t'.evts == t.evts && Elsewhere(t, t', slot)
  {
  }

  lemma {:induction false} GatherElsewhere(t: Tables, bound: Option<Said>, issuer: string, kel: Kel, slot: Slot,
                                           saids: seq<Said>, usable: map<Said, Serder>)
    ensures Elsewhere(t, Gather(t, bound, issuer, kel, slot, saids, usable).0, slot)
    decreases |saids|
  {
    if saids != [] {
      var (t1, usable1) := GatherNext(t, bound, issuer, kel, slot, saids[0], usable);
      GatherUnfolds(t, bound, issuer, kel, slot, saids, usable);
      GatherElsewhere(t1, bound, issuer, kel, slot, saids[1..], usable1);
    }
  }

  lemma TurnGathers(w: World, p: Sweep, t: Tables, c: nat) returns (t1: Tables, usable: map<Said, Serder>)
    requires Steady(w, t, {}, None) && Sound(w, p.kel) && Home(w, p.t.maes)
    ensures var slot := Slot(p.regk, c);
            && (t1, usable) == Gather(t, Some(p.regk), p.issuer, p.kel, slot, Entries(p.t.maes, slot), map[])
            && Competing(w, t1, p.issuer, p.kel, slot, usable) && t1.tels == t.tels && t1.evts == t.evts
            && Elsewhere(t, t1, slot) && (forall s | s in usable :: SlotOf(usable[s]) == slot)
  {
    var slot := Slot(p.regk, c);
    var saids := Entries(p.t.maes, slot);
    var g := Gather(t, Some(p.regk), p.issuer, p.kel, slot, saids, map[]);
    t1, usable := g.0, g.1;
    assert forall s | s in saids :: SlotOf(w.doc(s)) == slot;
    GatherCompetes(w, t, p.issuer, p.kel, slot, saids);
    GatherExact(w, t, Some(p.regk), p.issuer, p.kel, slot, saids, map[]);
    GatherElsewhere(t, Some(p.regk), p.issuer, p.kel, slot, saids, map[]);
  }

  lemma SameLogIs(t: Tables, t': Tables, regk: Said, log: seq<Said>)
    requires LogIs(t, regk, log) && t'.tels == t.tels
    ensures LogIs(t', regk, log)
  {
  }

  lemma NoneBeyond(w: World, t: Tables, regk: Said, log: seq<Said>, n: nat)
    requires Log(w, t) && LogIs(t, regk, log) && n >= |log|
    ensures Slot(regk, n) !in t.tels
  {
    if Slot(regk, n) in t.tels {
      BelowLogged(w, t, regk, n, |log|);
    }
  }

  lemma TurnAheadLog(w: World, p: Sweep, t: Tables, c: nat)
    requires Steady(w, t, {}, None) && Sound(w, p.kel) && Home(w, p.t.maes) && c > 0
    requires Slot(p.regk, c) !in t.tels && Slot(p.regk, c - 1) !in t.tels
    ensures Turn(p, t, c).tels == t.tels
  {
    var t1, usable := TurnGathers(w, p, t, c);
    RetryWaits(t1, Some(p.regk), p.issuer, p.kel, Slot(p.regk, c), usable, ByWinner(t1.ancs, usable.Keys));
  }

  lemma StillAbreast(p: Sweep, t: Tables, t': Tables, log: seq<Said>)
    requires Abreast(p, t, log) && Since(p, t') && t'.tels == t.tels
    ensures Abreast(p, t', log)
  {
    SameLogIs(t, t', p.regk, log);
  }

  lemma AheadIsFree(w: World, t: Tables, regk: Said, log: seq<Said>, c: nat)
    requires Log(w, t) && LogIs(t, regk, log) && |log| < c
    ensures Slot(regk, c) !in t.tels && Slot(regk, c - 1) !in t.tels
  {
    NoneBeyond(w, t, regk, log, c);
    NoneBeyond(w, t, regk, log, c - 1);
  }

  /** The turn of a slot beyond the end of the log. */
  lemma TurnAhead(w: World, p: Sweep, t: Tables, c: nat, log: seq<Said>)
    requires Sound(w, p.kel) && Home(w, p.t.maes) && Course(w, p, t, c, log) && |log| < c
    ensures Course(w, p, Turn(p, t, c), c + 1, log)
  {
    AheadIsFree(w, t, p.regk, log, c);
    TurnSince(w, p, t, c);
    TurnAheadLog(w, p, t, c);
    StaysBehind(w, p, t, Turn(p, t, c), c, log);
  }

  lemma StaysBehind(w: World, p: Sweep, t: Tables, t': Tables, c: nat, log: seq<Said>)
    requires Course(w, p, t, c, log) && |log| < c && Steady(w, t', {}, None) && Since(p, t') && t'.tels == t.tels
    ensures Course(w, p, t', c + 1, log)
  {
    StillAbreast(p, t, t', log);
  }

  lemma ElsewhereTrans(t: Tables, t': Tables, t'': Tables, slot: Slot)
    requires Elsewhere(t, t', slot) && Elsewhere(t', t'', slot)
    ensures Elsewhere(t, t'', slot)
  {
  }

  lemma ElsewhereQueues(p: Sweep, t: Tables, t': Tables, c: nat, n: nat)
    requires Elsewhere(t, t', Slot(p.regk, c)) && QueuesFrom(p, t, n) && c < n
    ensures QueuesFrom(p, t', n)
  {
  }

  lemma TurnBehindLog(w: World, p: Sweep, t: Tables, c: nat)
    requires Steady(w, t, {}, None) && Sound(w, p.kel) && Home(w, p.t.maes) && Slot(p.regk, c) in t.tels
    ensures Turn(p, t, c).tels == t.tels && Elsewhere(t, Turn(p, t, c), Slot(p.regk, c))
  {
    var slot := Slot(p.regk, c);
    LoggedExact(w, t, slot);
    var t1, usable := TurnGathers(w, p, t, c);
    RetryDecided(t1, Some(p.regk), p.issuer, p.kel, slot, usable, ByWinner(t1.ancs, usable.Keys));
    ElsewhereTrans(t, t1, Turn(p, t, c), slot);
  }

  /** The turn of a slot that is filled. */
  lemma TurnBehind(w: World, p: Sweep, t: Tables, c: nat, log: seq<Said>)
    requires Sound(w, p.kel) && Home(w, p.t.maes) && Course(w, p, t, c, log) && |log| > c
    ensures Course(w, p, Turn(p, t, c), c + 1, log)
  {
    TurnSince(w, p, t, c);
    TurnBehindLog(w, p, t, c);
    ElsewhereQueues(p, t, Turn(p, t, c), c, |log| + 1);
    StillAbreast(p, t, Turn(p, t, c), log);
  }

  /** The escrow's winner at the end of the log is as foretold. */
  lemma EscrowAtFrontier(w: World, p: Sweep, t: Tables, n: nat, below: Option<Said>)
    requires Core(w, p.t) && Bodies(w, t) && Since(p, t)
    requires Due(w, t, Slot(p.regk, n), Entries(p.t.maes, Slot(p.regk, n)))
    ensures First(Seen(t, p.kel), Contenders(t, p.issuer, Entries(p.t.maes, Slot(p.regk, n)), below))
         == EscrowWinner(p, n, below)
  {
    var saids := Entries(p.t.maes, Slot(p.regk, n));
    forall s | s in saids ensures s in p.t.evts && s !in p.t.ancs && s !in t.ancs && s in t.evts && t.evts[s] == p.t.evts[s] {
      assert Escrowed(w, p.t, Slot(p.regk, n), s);
    }
    SameContenders(p, t, saids, below);
    var rivals := Contenders(p.t, p.issuer, saids, below);
    SameFirst(Seen(t, p.kel), rivals, Seen(p.t, p.kel), rivals);
  }

  lemma PlacedInOrder(t: Tables, kel: Kel, e: Serder, prior: Option<Serder>)
    requires e.said in t.evts && t.evts[e.said] == e && e.said in t.ancs && SlotOf(e) !in t.tels
    requires e.ilk.Rip? || prior.Some?
    ensures var o := Placed(Stored(t, kel, e), e, prior);
            && o.done && o.t.tels == t.tels[SlotOf(e) := e.said] && o.t.evts == t.evts && o.t.ancs == t.ancs
            && Elsewhere(t, o.t, SlotOf(e))
  {
    assert t.evts[e.said := e] == t.evts;
    assert Stored(t, kel, e) == t;
  }

  lemma SameButLog(t: Tables, t': Tables, slot: Slot, s: Said)
    requires slot !in t.tels && t'.tels == t.tels[slot := s] && t'.evts == t.evts && t'.ancs == t.ancs
    ensures Grows(t, t')
  {
  }

  lemma ValidInOrder(w: World, t: Tables, bound: Option<Said>, issuer: string, e: Serder)
    requires Bodies(w, t) && Log(w, t) && Validate(t, bound, issuer, e).Ok? && Vacant(t, SlotOf(e))
    ensures var c := Validate(t, bound, issuer, e).value;
            c.existing.None? && (e.ilk.Rip? || c.prior.Some?)
  {
    ValidFree(w, t, bound, issuer, e);
  }

  lemma WinnerIsValid(w: World, t: Tables, issuer: string, kel: Kel, slot: Slot, usable: map<Said, Serder>, s: Said)
    requires Competing(w, t, issuer, kel, slot, usable) && s in usable
    ensures usable[s].said == s && w.doc(s) == usable[s] && SlotOf(usable[s]) == slot && s in t.evts && t.evts[s] == usable[s]
    ensures Validate(t, Some(slot.regk), issuer, usable[s]).Ok?
  {
    CompetitorValid(w, t, issuer, kel, slot, usable, s);
  }

  /** The winner of the slot is committed, and the queue is drained behind it. */
  lemma WinnerIsDrained(w: World, t: Tables, issuer: string, kel: Kel, slot: Slot, usable: map<Said, Serder>, s: Said)
    returns (c: Tables)
    requires Competing(w, t, issuer, kel, slot, usable) && Vacant(t, slot) && s in usable && s in t.ancs
    ensures Process(t, Some(slot.regk), issuer, kel, usable[s]) == Ok(Outcome(Drain(c, slot.regk, issuer), true))
    ensures Steady(w, c, usable.Keys - {s}, Some(NextOf(c, slot.regk))) && Grows(t, c) && c.ancs == t.ancs
    ensures c.tels == t.tels[slot := s] && Elsewhere(t, c, slot)
  {
    WinnerIsValid(w, t, issuer, kel, slot, usable, s);
    ValidInOrder(w, t, Some(slot.regk), issuer, usable[s]);
    var prior := Validate(t, Some(slot.regk), issuer, usable[s]).value.prior;
    c := Placed(Stored(t, kel, usable[s]), usable[s], prior).t;
    PlacedInOrder(t, kel, usable[s], prior);
    SameButLog(t, c, slot, s);
    PlacedOpens(w, t, Some(slot.regk), issuer, kel, usable[s], usable.Keys);
  }

  lemma RestDecides(w: World, t: Tables, issuer: string, kel: Kel, slot: Slot, usable: map<Said, Serder>, order: seq<Said>,
                    d: Tables, pending: set<Said>)
    requires order != [] && (forall x | x in order :: x in usable && SlotOf(usable[x]) == slot)
    requires Process(t, Some(slot.regk), issuer, kel, usable[order[0]]) == Ok(Outcome(d, true))
    requires Steady(w, d, pending, None) && slot in d.tels
    ensures var t' := Retry(t, Some(slot.regk), issuer, kel, slot, usable, order); t'.tels == d.tels && Elsewhere(d, t', slot)
  {
    LoggedExact(w, d, slot);
    RetryDecided(d, Some(slot.regk), issuer, kel, slot, usable, order[1..]);
  }

  lemma TurnGathersSince(w: World, p: Sweep, t: Tables, c: nat)
    requires Steady(w, t, {}, None) && Sound(w, p.kel) && Home(w, p.t.maes) && Since(p, t)
    ensures var slot := Slot(p.regk, c);
            Since(p, Gather(t, Some(p.regk), p.issuer, p.kel, slot, Entries(p.t.maes, slot), map[]).0)
  {
    var slot := Slot(p.regk, c);
    var saids := Entries(p.t.maes, slot);
    var (t1, usable) := Gather(t, Some(p.regk), p.issuer, p.kel, slot, saids, map[]);
    assert forall s | s in saids :: SlotOf(w.doc(s)) == slot;
    GatherSteady(w, t, Some(p.regk), p.issuer, p.kel, slot, saids, t1, usable);
    GatherAdds(w, t, Some(p.regk), p.issuer, p.kel, slot, saids, map[], set s | s in saids);
    SinceGrows(p, t, t1);
  }

  /** The first of those gathered at the end of the log is the escrow's winner, as foretold. */
  lemma TurnFirst(w: World, p: Sweep, t: Tables, log: seq<Said>, t1: Tables, usable: map<Said, Serder>)
    requires Core(w, p.t) && Home(w, p.t.maes) && Steady(w, t, {}, None) && Since(p, t) && LogIs(t, p.regk, log)
    requires Due(w, t, Slot(p.regk, |log|), Entries(p.t.maes, Slot(p.regk, |log|)))
    requires var slot := Slot(p.regk, |log|);
             && (t1, usable) == Gather(t, Some(p.regk), p.issuer, p.kel, slot, Entries(p.t.maes, slot), map[])
             && Competing(w, t1, p.issuer, p.kel, slot, usable)
    ensures First(t1.ancs, usable.Keys) == EscrowWinner(p, |log|, Under(log, |log|)) && Vacant(t, Slot(p.regk, |log|))
  {
    var slot := Slot(p.regk, |log|);
    FrontierIsNext(w, t, p.regk, log);
    GatherContenders(w, t, p.issuer, p.kel, slot, Entries(p.t.maes, slot));
    GatheredFirst(t1, Some(p.regk), p.issuer, p.kel, usable);
    EscrowAtFrontier(w, p, t, |log|, Under(log, |log|));
  }

  /** The winner is committed at the end of the log. */
  lemma TurnCommits(w: World, p: Sweep, t: Tables, log: seq<Said>, s: Said)
    returns (t1: Tables, usable: map<Said, Serder>, c: Tables)
    requires Core(w, p.t) && Sound(w, p.kel) && Home(w, p.t.maes) && Course(w, p, t, |log|, log)
    requires Due(w, t, Slot(p.regk, |log|), Entries(p.t.maes, Slot(p.regk, |log|)))
    requires EscrowWinner(p, |log|, Under(log, |log|)) == Some(s)
    ensures var slot := Slot(p.regk, |log|);
            && (t1, usable) == Gather(t, Some(p.regk), p.issuer, p.kel, slot, Entries(p.t.maes, slot), map[])
            && First(t1.ancs, usable.Keys) == Some(s) && s in usable && (forall x | x in usable :: SlotOf(usable[x]) == slot)
            && Process(t1, Some(p.regk), p.issuer, p.kel, usable[s]) == Ok(Outcome(Drain(c, p.regk, p.issuer), true))
    ensures Steady(w, c, usable.Keys - {s}, Some(NextOf(c, p.regk)))
    ensures Since(p, c) && c.tels == t.tels[Slot(p.regk, |log|) := s] && Elsewhere(t, c, Slot(p.regk, |log|))
  {
    var slot := Slot(p.regk, |log|);
    t1, usable := TurnGathers(w, p, t, |log|);
    TurnGathersSince(w, p, t, |log|);
    TurnFirst(w, p, t, log, t1, usable);
    FirstExact(t1.ancs, usable.Keys, s);
    c := WinnerIsDrained(w, t1, p.issuer, p.kel, slot, usable, s);
    SinceGrows(p, t1, c);
    ElsewhereTrans(t, t1, c, slot);
  }

  /** The turn of the slot at the end of the log, when somebody wins it. */
  lemma TurnWon(w: World, p: Sweep, t: Tables, log: seq<Said>, s: Said) returns (more: seq<Said>)
    requires Core(w, p.t) && Sound(w, p.kel) && Home(w, p.t.maes) && Course(w, p, t, |log|, log)
    requires Due(w, t, Slot(p.regk, |log|), Entries(p.t.maes, Slot(p.regk, |log|)))
    requires EscrowWinner(p, |log|, Under(log, |log|)) == Some(s)
    ensures Course(w, p, Turn(p, t, |log|), |log| + 1, more)
  {
    var n := |log|;
    var t1, usable, c := TurnCommits(w, p, t, log, s);
    FrontierIsFree(p, t, log);
    AbreastMore(w, p, t, c, log, s);
    ElsewhereQueues(p, t, c, n, n + 1);
    more := DrainTakes(w, p, c, log + [s], usable.Keys - {s});
    DrainKeeps(w, c, p.regk, p.issuer, usable.Keys - {s});
    TurnSince(w, p, t, n);
    TurnEnds(w, p, t, t1, n, usable, s, Drain(c, p.regk, p.issuer), usable.Keys - {s});
    StaysAhead(w, p, Drain(c, p.regk, p.issuer), Turn(p, t, n), n, more);
  }

  lemma FrontierIsFree(p: Sweep, t: Tables, log: seq<Said>)
    requires Grows(p.t, t) && LogIs(t, p.regk, log)
    ensures Slot(p.regk, |log|) !in p.t.tels
  {
  }

  /** After the winner the others of the slot change nothing in the log. */
  lemma TurnEnds(w: World, p: Sweep, t: Tables, t1: Tables, n: nat, usable: map<Said, Serder>, s: Said, d: Tables,
                 pending: set<Said>)
    requires var slot := Slot(p.regk, n);
             && (t1, usable) == Gather(t, Some(p.regk), p.issuer, p.kel, slot, Entries(p.t.maes, slot), map[])
             && First(t1.ancs, usable.Keys) == Some(s) && s in usable && (forall x | x in usable :: SlotOf(usable[x]) == slot)
             && Process(t1, Some(p.regk), p.issuer, p.kel, usable[s]) == Ok(Outcome(d, true))
             && Steady(w, d, pending, None) && slot in d.tels
    ensures Turn(p, t, n).tels == d.tels && Elsewhere(d, Turn(p, t, n), Slot(p.regk, n))
  {
    FirstInOrder(t1.ancs, usable.Keys);
    RestDecides(w, t1, p.issuer, p.kel, Slot(p.regk, n), usable, ByWinner(t1.ancs, usable.Keys), d, pending);
  }

  lemma StaysAhead(w: World, p: Sweep, d: Tables, t: Tables, n: nat, log: seq<Said>)
    requires Abreast(p, d, log) && QueuesFrom(p, d, |log| + 1) && QueueWinner(p, |log|, Under(log, |log|)).None? && n < |log|
    requires Steady(w, t, {}, None) && Since(p, t) && t.tels == d.tels && Elsewhere(d, t, Slot(p.regk, n))
    ensures Course(w, p, t, n + 1, log)
  {
    StillAbreast(p, d, t, log);
    ElsewhereQueues(p, d, t, n, |log| + 1);
  }

  lemma TurnIdleLog(w: World, p: Sweep, t: Tables, log: seq<Said>)
    requires Core(w, p.t) && Sound(w, p.kel) && Home(w, p.t.maes) && Steady(w, t, {}, None) && Since(p, t)
    requires LogIs(t, p.regk, log) && Due(w, t, Slot(p.regk, |log|), Entries(p.t.maes, Slot(p.regk, |log|)))
    requires EscrowWinner(p, |log|, Under(log, |log|)).None?
    ensures Turn(p, t, |log|).tels == t.tels
  {
    var slot := Slot(p.regk, |log|);
    var t1, usable := TurnGathers(w, p, t, |log|);
    TurnFirst(w, p, t, log, t1, usable);
    RetryWinner(w, t1, p.issuer, p.kel, slot, usable);
  }

  /** The turn of the slot at the end of the log, when nobody wins it. */
  lemma TurnIdle(w: World, p: Sweep, t: Tables, log: seq<Said>)
    requires Core(w, p.t) && Sound(w, p.kel) && Home(w, p.t.maes) && Course(w, p, t, |log|, log)
    requires Due(w, t, Slot(p.regk, |log|), Entries(p.t.maes, Slot(p.regk, |log|)))
    requires EscrowWinner(p, |log|, Under(log, |log|)).None?
    ensures Course(w, p, Turn(p, t, |log|), |log| + 1, log)
  {
    TurnIdleLog(w, p, t, log);
    TurnSince(w, p, t, |log|);
    StillAbreast(p, t, Turn(p, t, |log|), log);
  }

  lemma TurnAtEnd(w: World, p: Sweep, t: Tables, log: seq<Said>) returns (more: seq<Said>)
    requires Core(w, p.t) && Sound(w, p.kel) && Home(w, p.t.maes) && Course(w, p, t, |log|, log)
    requires Due(w, t, Slot(p.regk, |log|), Entries(p.t.maes, Slot(p.regk, |log|)))
    ensures Course(w, p, Turn(p, t, |log|), |log| + 1, more)
  {
    var winner := EscrowWinner(p, |log|, Under(log, |log|));
    if winner.None? {
      more := log;
      TurnIdle(w, p, t, log);
    } else {
      more := TurnWon(w, p, t, log, winner.value);
    }
  }

  lemma TurnPast(w: World, p: Sweep, t: Tables, c: nat, log: seq<Said>)
    requires Sound(w, p.kel) && Home(w, p.t.maes) && Course(w, p, t, c, log) && |log| != c
    ensures Course(w, p, Turn(p, t, c), c + 1, log)
  {
    if |log| < c {
      TurnAhead(w, p, t, c, log);
    } else {
      TurnBehind(w, p, t, c, log);
    }
  }

  /** One slot's turn keeps the pass on course. */
  lemma TurnKeeps(w: World, p: Sweep, t: Tables, c: nat, log: seq<Said>) returns (more: seq<Said>)
    requires Core(w, p.t) && Sound(w, p.kel) && Home(w, p.t.maes) && Course(w, p, t, c, log)
    requires Due(w, t, Slot(p.regk, c), Entries(p.t.maes, Slot(p.regk, c)))
    ensures Course(w, p, Turn(p, t, c), c + 1, more)
  {
    if |log| == c {
      more := TurnAtEnd(w, p, t, log);
    } else {
      more := log;
      TurnPast(w, p, t, c, log);
    }
  }

  // ----- the whole pass ----------------------------------------------------------------------

  /** The slots still to be visited are those from c on that have entries. */
  ghost predicate Remaining(p: Sweep, sns: seq<nat>, c: nat) {
    SortedBy(Fewer(), sns) && forall n: nat :: n in sns <==> n >= c && Entries(p.t.maes, Slot(p.regk, n)) != []
  }

  lemma NextRemaining(p: Sweep, sns: seq<nat>, c: nat)
    requires Remaining(p, sns, c) && sns != []
    ensures c <= sns[0] && Remaining(p, sns[1..], sns[0] + 1)
    ensures forall m: nat | c <= m < sns[0] :: Entries(p.t.maes, Slot(p.regk, m)) == []
  {
    assert sns[0] in sns;
    forall n: nat | n in sns && n != sns[0] ensures n > sns[0] && n in sns[1..] {
      var j :| 0 <= j < |sns| && sns[j] == n;
      assert Fewer()(sns[0], sns[j]);
      assert sns[1..][j - 1] == n;
    }
    forall n: nat | n in sns[1..] ensures n in sns && n > sns[0] {
      var j :| 1 <= j < |sns| && sns[j] == n;
      assert Fewer()(sns[0], sns[j]);
    }
  }

  lemma {:induction false} RetryAllTakes(w: World, p: Sweep, t: Tables, sns: seq<nat>, c: nat, log: seq<Said>)
    returns (more: seq<Said>)
    requires Core(w, p.t) && Sound(w, p.kel) && Home(w, p.t.maes) && Course(w, p, t, c, log)
    requires Remaining(p, sns, c) && Unvisited(t, p.regk, p.t.maes, sns)
    ensures var t' := RetryAll(t, p.regk, p.issuer, p.kel, p.t.maes, sns);
            Steady(w, t', {}, None) && Abreast(p, t', more) && Winner(p, |more|, Under(more, |more|)).None?
    decreases |sns|
  {
    if sns == [] {
      more := log;
      SkipTo(w, p, t, c, if |log| < c then c else |log| + 1, log);
    } else {
      NextRemaining(p, sns, c);
      SkipTo(w, p, t, c, sns[0], log);
      assert sns[0..] == sns;
      NextTurn(w, t, p.regk, p.issuer, p.kel, p.t.maes, sns, 0);
      more := TurnKeeps(w, p, t, sns[0], log);
      more := RetryAllTakes(w, p, Turn(p, t, sns[0]), sns[1..], sns[0] + 1, more);
    }
  }

  lemma QuietHasNoQueue(t: Tables, slot: Slot)
    requires Quiet(t, None) && Vacant(t, slot)
    ensures Entries(t.ooes, slot) == []
  {
  }

  lemma StartOfLog(w: World, t: Tables, regk: Said) returns (log: seq<Said>)
    requires Bodies(w, t) && Log(w, t) && Heads(w, t)
    ensures LogIs(t, regk, log)
  {
    var top := NextOf(t, regk);
    HeadExact(w, t, regk);
    forall n: nat | n < top.sn ensures Slot(regk, n) in t.tels {
      BelowLogged(w, t, regk, top.sn - 1, n);
    }
    log := seq(top.sn, n requires 0 <= n < top.sn => t.tels[Slot(regk, n)]);
  }

  /** The pass starts on course. */
  lemma StartOnCourse(w: World, p: Sweep, log: seq<Said>)
    requires Steady(w, p.t, {}, None) && LogIs(p.t, p.regk, log)
    ensures Course(w, p, p.t, 0, log)
  {
    FrontierIsNext(w, p.t, p.regk, log);
    QuietHasNoQueue(p.t, Slot(p.regk, |log|));
    EmptyHasNoFirst(p.t.ancs, p.t, p.issuer, Under(log, |log|));
    GrowsTrans(p.t, p.t, p.t);
  }

  /** Between calls there is nothing to drain. */
  lemma QuietDrains(w: World, t: Tables, regk: Said, issuer: string)
    requires Steady(w, t, {}, None)
    ensures Drain(t, regk, issuer) == t
  {
    var log := StartOfLog(w, t, regk);
    FrontierIsNext(w, t, regk, log);
    QuietHasNoQueue(t, NextOf(t, regk));
  }

  lemma TakesOn(p: Sweep, n: nat, below: Option<Said>)
    requires below == if n == 0 then None else Takes(p, n - 1)
    ensures Takes(p, n) == Fills(p, n, below)
  {
  }

  lemma ToldAt(p: Sweep, log: seq<Said>, n: nat)
    requires Foretold(p, log) && n < |log|
    ensures Fills(p, n, Under(log, n)) == Some(log[n])
  {
    assert Told(p, log, n);
  }

  lemma {:induction false} TakesWithin(p: Sweep, log: seq<Said>, n: nat)
    requires Foretold(p, log) && n < |log|
    ensures Takes(p, n) == Some(log[n])
  {
    if n > 0 {
      TakesWithin(p, log, n - 1);
    }
    TakesOn(p, n, Under(log, n));
    ToldAt(p, log, n);
  }

  lemma FillsNone(p: Sweep, n: nat, below: Option<Said>)
    requires Slot(p.regk, n) !in p.t.tels && ((n > 0 && below.None?) || Winner(p, n, below).None?)
    ensures Fills(p, n, below).None?
  {
  }

  lemma UnderTakes(p: Sweep, log: seq<Said>, n: nat)
    requires Foretold(p, log) && n <= |log|
    ensures Under(log, n) == if n == 0 then None else Takes(p, n - 1)
  {
    if n > 0 {
      TakesWithin(p, log, n - 1);
    }
  }

  lemma TakesNone(p: Sweep, n: nat, below: Option<Said>)
    requires below == if n == 0 then None else Takes(p, n - 1)
    requires Slot(p.regk, n) !in p.t.tels && ((n > 0 && below.None?) || Winner(p, n, below).None?)
    ensures Takes(p, n).None?
  {
    TakesOn(p, n, below);
    FillsNone(p, n, below);
  }

  ghost predicate FreeFrom(p: Sweep, k: nat) {
    forall n: nat | n >= k :: Slot(p.regk, n) !in p.t.tels
  }

  lemma FreeStays(p: Sweep, k: nat, n: nat)
    requires FreeFrom(p, k) && n > k && Takes(p, n - 1).None?
    ensures Takes(p, n).None?
  {
    TakesNone(p, n, None);
  }

  /** Above a slot that stays free all stay free. */
  lemma {:induction false} TakesBeyond(p: Sweep, k: nat, n: nat)
    requires Takes(p, k).None? && n >= k && FreeFrom(p, k)
    ensures Takes(p, n).None?
  {
    if n > k {
      assert Takes(p, n - 1).None? by {
        TakesBeyond(p, k, n - 1);
      }
      FreeStays(p, k, n);
    }
  }

  lemma EndTakesNone(p: Sweep, log: seq<Said>)
    requires Foretold(p, log) && Winner(p, |log|, Under(log, |log|)).None? && Slot(p.regk, |log|) !in p.t.tels
    ensures Takes(p, |log|).None?
  {
    UnderTakes(p, log, |log|);
    TakesNone(p, |log|, Under(log, |log|));
  }

  lemma {:induction false} SweepRuns(w: World, p: Sweep) returns (log: seq<Said>)
    requires Steady(w, p.t, {}, None) && Sound(w, p.kel)
    ensures var t' := ProcessEscrows(p.t, Some(p.regk), p.issuer, p.kel);
            Steady(w, t', {}, None) && Abreast(p, t', log) && Winner(p, |log|, Under(log, |log|)).None?
  {
    var sns := EscrowedSns(p.t.maes, p.regk);
    log := StartOfLog(w, p.t, p.regk);
    StartOnCourse(w, p, log);
    MissingHome(w, p.t);
    NoneVisited(p.t, p.regk, sns);
    log := RetryAllTakes(w, p, p.t, sns, 0, log);
    QuietDrains(w, RetryAll(p.t, p.regk, p.issuer, p.kel, p.t.maes, sns), p.regk, p.issuer);
  }

  /** What a pass over the escrows makes of the log, slot by slot, told from the tables and the key event log before it. */
  lemma SweepExact(w: World, p: Sweep, n: nat)
    requires Steady(w, p.t, {}, None) && Sound(w, p.kel)
    ensures EntryAt(ProcessEscrows(p.t, Some(p.regk), p.issuer, p.kel), p.regk, n) == Takes(p, n)
  {
    var log := SweepRuns(w, p);
    var t' := ProcessEscrows(p.t, Some(p.regk), p.issuer, p.kel);
    if n < |log| {
      TakesWithin(p, log, n);
    } else {
      forall m: nat | m >= |log| ensures Slot(p.regk, m) !in p.t.tels && Slot(p.regk, m) !in t'.tels {
        NoneBeyond(w, t', p.regk, log, m);
      }
      EndTakesNone(p, log);
      assert FreeFrom(p, |log|);
      TakesBeyond(p, |log|, n);
    }
  }
}
