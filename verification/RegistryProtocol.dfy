/** The event engine's decisions as functions of the tables: what one event, one pass over the queue and one
    pass over the missing-anchor escrow do to them. */
module RegistryProtocol {
  import opened Outcomes
  import opened KeyOrder
  import opened RegistryTables
  import opened RegistryStore
  import opened RegistryRules

  /** The local key event log as it stands at one moment: how to find a seal and how to check one. */
  datatype Kel = Kel(find: Serder -> Option<Seal>, verify: (Serder, Seal) -> bool)

  // ----- arbitration between siblings --------------------------------------------------------

  /** Earliest anchor first, then its digest, then the event's SAID; events without an anchor come last. */
  predicate WinnerLess(ancs: map<Said, Seal>, x: Said, y: Said) {
    if x in ancs && y in ancs then
      || ancs[x].sn < ancs[y].sn
      || (ancs[x].sn == ancs[y].sn
          && (StrLess(ancs[x].dig, ancs[y].dig) || (ancs[x].dig == ancs[y].dig && StrLess(x, y))))
    else if x in ancs then true
    else if y in ancs then false
    else StrLess(x, y)
  }

  /** Event x sealed by a comes before event y sealed by b: by the number of the sealing event, then by its digest, then
      by the SAID of the event. */
  ghost predicate Sooner(a: Seal, x: Said, b: Seal, y: Said) {
    || a.sn < b.sn
    || (a.sn == b.sn && Before(a.dig, b.dig))
    || (a == b && Before(x, y))
  }

  lemma WinnerLessExact(ancs: map<Said, Seal>, x: Said, y: Said)
    requires x in ancs && y in ancs
    ensures WinnerLess(ancs, x, y) <==> Sooner(ancs[x], x, ancs[y], y)
  {
    StrLessExact(ancs[x].dig, ancs[y].dig);
    StrLessExact(x, y);
  }

  function Winners(ancs: map<Said, Seal>): (Said, Said) -> bool {
    (x, y) => WinnerLess(ancs, x, y)
  }

  lemma WinnersStrictTotal(ancs: map<Said, Seal>)
    ensures StrictTotal(Winners(ancs))
  {
    var less := Winners(ancs);
    forall x ensures !less(x, x) {
      StrLessIrreflexive(x);
      if x in ancs { StrLessIrreflexive(ancs[x].dig); }
    }
    forall x, y, z | less(x, y) && less(y, z) ensures less(x, z) {
      WinnerTrans(ancs, x, y, z);
    }
    forall x, y ensures less(x, y) || less(y, x) || x == y {
      StrLessTotal(x, y);
      if x in ancs && y in ancs { StrLessTotal(ancs[x].dig, ancs[y].dig); }
    }
  }

  lemma WinnerTrans(ancs: map<Said, Seal>, x: Said, y: Said, z: Said)
    requires WinnerLess(ancs, x, y) && WinnerLess(ancs, y, z)
    ensures WinnerLess(ancs, x, z)
  {
    if StrLess(x, y) && StrLess(y, z) { StrLessTrans(x, y, z); }
    if x in ancs && y in ancs && z in ancs && StrLess(ancs[x].dig, ancs[y].dig) && StrLess(ancs[y].dig, ancs[z].dig) {
      StrLessTrans(ancs[x].dig, ancs[y].dig, ancs[z].dig);
    }
  }

  function ByWinner(ancs: map<Said, Seal>, saids: set<Said>): (ks: seq<Said>)
    ensures SortedBy(Winners(ancs), ks)
    ensures forall k :: k in ks <==> k in saids
    ensures forall i | 0 <= i < |ks| :: ks[i] in saids
  {
    WinnersStrictTotal(ancs);
    Sort(Winners(ancs), saids)
  }

  // ----- single moves ------------------------------------------------------------------------

  /** The anchor discovery would store for an event that has none. */
  function Discovered(kel: Kel, e: Serder): Option<Seal> {
    match kel.find(e)
    case None => None
    case Some(a) => if kel.verify(e, a) then Some(a) else None
  }

  /** The anchor found is the one the key event log offers, if it verifies. */
  lemma DiscoveredExact(kel: Kel, e: Serder, a: Seal)
    ensures Discovered(kel, e) == Some(a) <==> kel.find(e) == Some(a) && kel.verify(e, a)
  {
  }

  function Discover(t: Tables, kel: Kel, e: Serder): Tables {
    if e.said !in t.ancs && Discovered(kel, e).Some? then Step(t, AnchorPut(e.said, Discovered(kel, e).value)) else t
  }

  function EmptyAt(m: map<Slot, seq<Said>>, slot: Slot): map<Slot, seq<Said>> {
    if slot in m then m[slot := []] else m
  }

  /** Accepts the event and settles its slot: no escrow keeps an entry there. */
  function Commit(t: Tables, e: Serder): Tables {
    Step(t, Accepted(SlotOf(e), e)).(maes := EmptyAt(t.maes, SlotOf(e)), ooes := EmptyAt(t.ooes, SlotOf(e)))
  }

  /** An escrowed event can be replayed when its body is stored and still validates. */
  predicate Replayable(t: Tables, bound: Option<Said>, issuer: string, said: Said) {
    said in t.evts && Validate(t, bound, issuer, t.evts[said]).Ok?
  }

  /** It can also be committed when it has an anchor and its predecessor is logged. */
  predicate Ripe(t: Tables, bound: Option<Said>, issuer: string, said: Said) {
    && Replayable(t, bound, issuer, said) && said in t.ancs
    && Validate(t, bound, issuer, t.evts[said]).value.prior.Some?
  }

  /** Which events can be committed from the queue: anchored updates that name the logged entry below their slot. */
  lemma RipeExact(t: Tables, bound: Option<Said>, issuer: string, said: Said)
    requires Readable(t)
    ensures Ripe(t, bound, issuer, said) <==>
            && said in t.evts && said in t.ancs
            && var e := t.evts[said];
               && e.ilk.Bup? && e.sn > 0 && bound == Some(e.rd)
               && (Slot(e.rd, e.sn) in t.tels ==> t.tels[Slot(e.rd, e.sn)] == e.said)
               && Slot(e.rd, e.sn - 1) in t.tels && t.tels[Slot(e.rd, e.sn - 1)] == e.prior
  {
    if said in t.evts {
      ValidExact(t, bound, issuer, t.evts[said]);
      if Fitting(bound, issuer, t.evts[said]) {
        FittingChecked(t, bound, issuer, t.evts[said]);
      }
    }
  }

  // ----- the queue ---------------------------------------------------------------------------

  /** Commits the first ripe candidate; those before it that cannot be replayed are dropped. */
  function Advance(t: Tables, bound: Option<Said>, issuer: string, slot: Slot, order: seq<Said>)
    : (Tables, Option<Said>)
    decreases |order|
  {
    if order == [] then (t, None)
    else if !Replayable(t, bound, issuer, order[0]) then
      Advance(Cleared(t, slot, order[0]), bound, issuer, slot, order[1..])
    else if !Ripe(t, bound, issuer, order[0]) then Advance(t, bound, issuer, slot, order[1..])
    else (Commit(t, t.evts[order[0]]), Some(order[0]))
  }

  /** The sequence number of a registry's accepted head, or -1. */
  function HeadSn(t: Tables, regk: Said): int {
    if regk in t.heads && t.heads[regk] in t.evts then t.evts[t.heads[regk]].sn else -1
  }

  /** The first slot after the accepted head. */
  function NextOf(t: Tables, regk: Said): Slot {
    Slot(regk, if HeadSn(t, regk) < 0 then 0 else HeadSn(t, regk) + 1)
  }

  function QueueSlots(t: Tables): set<Slot> {
    set slot | slot in t.ooes && t.ooes[slot] != []
  }

  function Contest(t: Tables, regk: Said, issuer: string): (Tables, Option<Said>) {
    var slot := NextOf(t, regk);
    Advance(t, Some(regk), issuer, slot, ByWinner(t.ancs, set s | s in Entries(t.ooes, slot)))
  }

  /** Advances the slot after the head as long as that commits something. Every commit settles one more slot
      of the queue (DrainShrinks); where the rules do not hold the function stops as soon as one does not. */
  function Drain(t: Tables, regk: Said, issuer: string): Tables
    decreases |QueueSlots(t)|
  {
    if Entries(t.ooes, NextOf(t, regk)) == [] then t
    else
      var (t', winner) := Contest(t, regk, issuer);
      if winner.None? || |QueueSlots(t')| >= |QueueSlots(t)| then t' else Drain(t', regk, issuer)
  }

  // ----- one event ---------------------------------------------------------------------------

  datatype Outcome = Outcome(t: Tables, done: bool)

  /** Stores a new event and looks for its anchor. */
  function Stored(t: Tables, kel: Kel, e: Serder): Tables {
    Discover(Step(t, EventPut(e)), kel, e)
  }

  /** Where a stored event goes: to the missing-anchor escrow, to the queue, or into the log. */
  function Placed(t: Tables, e: Serder, prior: Option<Serder>): Outcome {
    if e.said !in t.ancs then Outcome(Step(t, MissingAnchorAdded(SlotOf(e), e.said)), false)
    else
      var t' := Step(t, MissingAnchorRemoved(SlotOf(e), e.said));
      if e.ilk.Rip? || prior.Some? then Outcome(Commit(t', e), true)
      else Outcome(Step(t', OutOfOrderAdded(SlotOf(e), e.said)), false)
  }

  function Settle(o: Outcome, regk: Said, issuer: string): Outcome {
    if o.done then o.(t := Drain(o.t, regk, issuer)) else o
  }

  function Process(t: Tables, bound: Option<Said>, issuer: string, kel: Kel, e: Serder): Result<Outcome, Fault> {
    match Validate(t, bound, issuer, e)
    case Err(f) => Err(f)
    case Ok(c) =>
      if c.existing.Some? then Ok(Outcome(t, true))
      else Ok(Settle(Placed(Stored(t, kel, e), e, c.prior), RegkOf(e), issuer))
  }

  function CoupleOf(number: Option<nat>, dig: Option<string>): Option<Seal> {
    if number.Some? && dig.Some? then Some(Seal(number.value, dig.value)) else None
  }

  /** An anchor given by the caller is checked; without one the key event log is searched. */
  function Anchored(t: Tables, kel: Kel, e: Serder, couple: Option<Seal>): Tables {
    match couple
    case None => Discover(t, kel, e)
    case Some(a) => if kel.verify(e, a) then Step(t, AnchorPut(e.said, a)) else t
  }

  function AnchorFault(t: Tables, kel: Kel, e: Serder, couple: Option<Seal>): bool {
    match couple
    case None => e.said !in Discover(t, kel, e).ancs
    case Some(a) => !kel.verify(e, a)
  }

  /** Why a message is not anchored, before its anchor is even looked at. */
  function AnchorRefusal(t: Tables, bound: Option<Said>, issuer: string, said: Said,
                         number: Option<nat>, dig: Option<string>): Option<Fault> {
    if said !in t.evts then Some(UnknownEvent)
    else
      match Validate(t, bound, issuer, t.evts[said])
      case Err(f) => Some(f)
      case Ok(_) => if number.None? != dig.None? then Some(HalfCouple) else None
  }

  /** Records the anchor of a stored event, then processes the event again. */
  function AnchorMsg(t: Tables, bound: Option<Said>, issuer: string, kel: Kel, said: Said,
                     number: Option<nat>, dig: Option<string>)
    : Result<Outcome, Fault>
  {
    match AnchorRefusal(t, bound, issuer, said, number, dig)
    case Some(f) => Err(f)
    case None =>
      var e, couple := t.evts[said], CoupleOf(number, dig);
      if AnchorFault(t, kel, e, couple) then Err(InvalidAnchor)
      else Process(Anchored(t, kel, e, couple), bound, issuer, kel, e)
  }

  // ----- the missing-anchor escrow -----------------------------------------------------------

  /** Replays the entries of one slot and looks for their anchors, collecting those still usable. */
  function Gather(t: Tables, bound: Option<Said>, issuer: string, kel: Kel, slot: Slot, saids: seq<Said>,
                  usable: map<Said, Serder>): (Tables, map<Said, Serder>)
    decreases |saids|
  {
    if saids == [] then (t, usable)
    else if !Replayable(t, bound, issuer, saids[0]) then
      Gather(Cleared(t, slot, saids[0]), bound, issuer, kel, slot, saids[1..], usable)
    else
      var e := t.evts[saids[0]];
      Gather(Discover(t, kel, e), bound, issuer, kel, slot, saids[1..], usable[saids[0] := e])
  }

  function Retried(t: Tables, bound: Option<Said>, issuer: string, kel: Kel, slot: Slot, e: Serder, said: Said): Tables {
    match Process(t, bound, issuer, kel, e)
    case Ok(o) => o.t
    case Err(_) => Cleared(t, slot, said)
  }

  /** Processes the usable events in winner order; one that fails to validate is dropped. */
  function Retry(t: Tables, bound: Option<Said>, issuer: string, kel: Kel, slot: Slot,
                 usable: map<Said, Serder>, order: seq<Said>): Tables
    requires forall s | s in order :: s in usable
    decreases |order|
  {
    if order == [] then t
    else
      Retry(Retried(t, bound, issuer, kel, slot, usable[order[0]], order[0]), bound, issuer, kel, slot, usable, order[1..])
  }

  function RetrySlot(t: Tables, regk: Said, issuer: string, kel: Kel, slot: Slot, saids: seq<Said>): Tables {
    var (t', usable) := Gather(t, Some(regk), issuer, kel, slot, saids, map[]);
    Retry(t', Some(regk), issuer, kel, slot, usable, ByWinner(t'.ancs, usable.Keys))
  }

  function RetryAll(t: Tables, regk: Said, issuer: string, kel: Kel, maes: map<Slot, seq<Said>>, sns: seq<nat>)
    : Tables
    decreases |sns|
  {
    if sns == [] then t
    else
      var slot := Slot(regk, sns[0]);
      RetryAll(RetrySlot(t, regk, issuer, kel, slot, Entries(maes, slot)), regk, issuer, kel, maes, sns[1..])
  }

  function Fewer(): (nat, nat) -> bool {
    (x, y) => x < y
  }

  /** The sequence numbers at which a registry has escrowed events, in ascending order. */
  function EscrowedSns(maes: map<Slot, seq<Said>>, regk: Said): (sns: seq<nat>)
    ensures SortedBy(Fewer(), sns)
    ensures forall sn: nat :: sn in sns <==> Entries(maes, Slot(regk, sn)) != []
  {
    var sns := set slot | slot in maes && slot.regk == regk && maes[slot] != [] :: slot.sn;
    assert forall sn: nat | Entries(maes, Slot(regk, sn)) != [] :: Slot(regk, sn) in maes;
    Sort(Fewer(), sns)
  }

  /** One pass over the escrows of a registry. */
  function ProcessEscrows(t: Tables, bound: Option<Said>, issuer: string, kel: Kel): Tables {
    if bound.None? then t
    else Drain(RetryAll(t, bound.value, issuer, kel, t.maes, EscrowedSns(t.maes, bound.value)), bound.value, issuer)
  }
}
