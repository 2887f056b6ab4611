/** The rules of a registry's event chain, and the state the event engine keeps its tables in. */
module RegistryRules {
  import opened Outcomes
  import opened RegistryTables
  import opened InsertionSets

  // ----- validation --------------------------------------------------------------------------

  datatype Fault =
    | Unsupported | WrongIlk | Missequence | WrongIssuer | Misregistry | Misdigest
    | NoInception | ForeignRegistry | Conflict
    | UnknownEvent | HalfCouple | InvalidAnchor

  function RegkOf(e: Serder): Said {
    if e.ilk.Rip? then e.said else e.rd
  }

  function SlotOf(e: Serder): Slot {
    Slot(RegkOf(e), e.sn)
  }

  /** The event the log holds at a slot. */
  function Logged(t: Tables, slot: Slot): Option<Serder> {
    if slot in t.tels && t.tels[slot] in t.evts then Some(t.evts[t.tels[slot]]) else None
  }

  function RipFault(e: Serder, issuer: string): Option<Fault> {
    if e.ilk.OtherIlk? then Some(Unsupported)
    else if !e.ilk.Rip? then Some(WrongIlk)
    else if e.sn != 0 then Some(Missequence)
    else if e.issuer != issuer then Some(WrongIssuer)
    else None
  }

  function UpdateFault(e: Serder, regid: Said, prior: Option<Said>): Option<Fault> {
    if e.ilk.OtherIlk? then Some(Unsupported)
    else if !e.ilk.Bup? then Some(WrongIlk)
    else if e.rd != regid then Some(Misregistry)
    else if e.sn < 1 then Some(Missequence)
    else if prior.Some? && e.prior != prior.value then Some(Misdigest)
    else None
  }

  /** The shared rules for inceptions: which error, and when none. */
  lemma RipFaultExact(e: Serder, issuer: string)
    ensures RipFault(e, issuer) == Some(Unsupported) <==> e.ilk.OtherIlk?
    ensures RipFault(e, issuer) == Some(WrongIlk) <==> e.ilk.Bup?
    ensures RipFault(e, issuer) == Some(Missequence) <==> e.ilk.Rip? && e.sn > 0
    ensures RipFault(e, issuer) == None <==> e.ilk.Rip? && e.sn == 0 && e.issuer == issuer
    ensures RipFault(e, issuer) == Some(WrongIssuer) <==> e.ilk.Rip? && e.sn == 0 && e.issuer != issuer
  {
  }

  /** And those for updates. */
  lemma UpdateFaultExact(e: Serder, regid: Said, prior: Option<Said>)
    ensures UpdateFault(e, regid, prior) == Some(Unsupported) <==> e.ilk.OtherIlk?
    ensures UpdateFault(e, regid, prior) == Some(WrongIlk) <==> e.ilk.Rip?
    ensures UpdateFault(e, regid, prior) == Some(Misregistry) <==> e.ilk.Bup? && e.rd != regid
    ensures UpdateFault(e, regid, prior) == Some(Missequence) <==> e.ilk.Bup? && e.rd == regid && e.sn == 0
    ensures UpdateFault(e, regid, prior) == None <==>
              e.ilk.Bup? && e.rd == regid && e.sn > 0 && (prior == None || prior == Some(e.prior))
  {
  }

  /** What validation finds of an event: the event already logged at its slot, and its logged predecessor. */
  datatype Checked = Checked(existing: Option<Serder>, prior: Option<Serder>)

  function PriorOf(t: Tables, e: Serder): Option<Serder> {
    if e.ilk.Rip? || e.sn == 0 then None else Logged(t, Slot(RegkOf(e), e.sn - 1))
  }

  function Validate(t: Tables, bound: Option<Said>, issuer: string, e: Serder): Result<Checked, Fault> {
    if bound.None? && !e.ilk.Rip? then Err(NoInception)
    else
      var fault := if e.ilk.Rip? then RipFault(e, issuer) else UpdateFault(e, bound.value, None);
      if fault.Some? then Err(fault.value)
      else if bound.Some? && RegkOf(e) != bound.value then Err(ForeignRegistry)
      else
        var existing, prior := Logged(t, SlotOf(e)), PriorOf(t, e);
        if existing.Some? && existing.value.said != e.said then Err(Conflict)
        else if prior.Some? && UpdateFault(e, RegkOf(e), Some(prior.value.said)).Some?
        then Err(UpdateFault(e, RegkOf(e), Some(prior.value.said)).value)
        else Ok(Checked(existing, prior))
  }

  /** Every log entry has its body, stored under its own SAID. */
  ghost predicate Readable(t: Tables) {
    forall slot | slot in t.tels :: t.tels[slot] in t.evts && t.evts[t.tels[slot]].said == t.tels[slot]
  }

  /** The log holds some other event at the slot. */
  predicate Occupied(t: Tables, slot: Slot, said: Said) {
    slot in t.tels && t.tels[slot] != said
  }

  /** The event is the issuer's inception of the registry the engine is bound to, or of any if it is not bound, or an
      update of that registry at a number above zero. */
  predicate Fitting(bound: Option<Said>, issuer: string, e: Serder) {
    match e.ilk
    case Rip => e.sn == 0 && e.issuer == issuer && (bound == None || bound == Some(e.said))
    case Bup => bound == Some(e.rd) && e.sn > 0
    case OtherIlk => false
  }

  /** What the log says of a fitting event. */
  lemma FittingChecked(t: Tables, bound: Option<Said>, issuer: string, e: Serder)
    requires Readable(t) && Fitting(bound, issuer, e)
    ensures var r := Validate(t, bound, issuer, e);
            var slot := Slot(if e.ilk.Rip? then e.said else e.rd, e.sn);
            && (r == Err(Conflict) <==> Occupied(t, slot, e.said))
            && (r == Err(Misdigest) <==> !Occupied(t, slot, e.said) && e.ilk.Bup? && Occupied(t, Slot(e.rd, e.sn - 1), e.prior))
            && (r.Err? ==> r == Err(Conflict) || r == Err(Misdigest))
            && (r.Ok? ==>
                && r.value.existing == (if slot in t.tels then Some(t.evts[e.said]) else None)
                && r.value.prior == if e.ilk.Bup? && Slot(e.rd, e.sn - 1) in t.tels then Some(t.evts[e.prior]) else None)
  {
  }

  /** When an event is refused before the log is looked at, and why. */
  lemma MisfitRefused(t: Tables, bound: Option<Said>, issuer: string, e: Serder)
    requires !Fitting(bound, issuer, e)
    ensures Validate(t, bound, issuer, e)
         == Err(match e.ilk
                case Rip => if e.sn != 0 then Missequence else if e.issuer != issuer then WrongIssuer else ForeignRegistry
                case Bup => if bound == None then NoInception else if bound != Some(e.rd) then Misregistry else Missequence
                case OtherIlk => if bound == None then NoInception else Unsupported)
  {
  }

  /** Exactly which events validation lets pass. */
  lemma ValidExact(t: Tables, bound: Option<Said>, issuer: string, e: Serder)
    requires Readable(t)
    ensures Validate(t, bound, issuer, e).Ok? <==>
            && Fitting(bound, issuer, e)
            && !Occupied(t, Slot(if e.ilk.Rip? then e.said else e.rd, e.sn), e.said)
            && (e.ilk.Bup? ==> !Occupied(t, Slot(e.rd, e.sn - 1), e.prior))
  {
    if Fitting(bound, issuer, e) {
      FittingChecked(t, bound, issuer, e);
    } else {
      MisfitRefused(t, bound, issuer, e);
    }
  }

  // ----- the world the tables describe -------------------------------------------------------

  /** What SAIDs and seals stand for: the one event a SAID digests, and which seals the key event log bears out. */
  datatype World = World(doc: Said -> Serder, sealed: (Serder, Seal) -> bool)

  ghost predicate Bodies(w: World, t: Tables) {
    forall s | s in t.evts :: t.evts[s] == w.doc(s) && w.doc(s).said == s
  }

  ghost predicate Seals(w: World, t: Tables) {
    forall s | s in t.ancs :: s in t.evts && w.sealed(w.doc(s), t.ancs[s])
  }

  /** A log entry is a stored and anchored event of its slot: an inception at 0, and above it an update
      that names the entry below. */
  ghost predicate Entry(w: World, t: Tables, slot: Slot)
    requires slot in t.tels
  {
    var s := t.tels[slot];
    && s in t.evts && s in t.ancs && SlotOf(w.doc(s)) == slot
    && (slot.sn == 0 ==> w.doc(s).ilk == Rip)
    && (slot.sn > 0 ==> w.doc(s).ilk == Bup && Slot(slot.regk, slot.sn - 1) in t.tels
                        && w.doc(s).prior == t.tels[Slot(slot.regk, slot.sn - 1)])
  }

  ghost predicate Log(w: World, t: Tables) {
    forall slot {:trigger Entry(w, t, slot)} | slot in t.tels :: Entry(w, t, slot)
  }

  /** A head is the log entry with nothing above it. */
  ghost predicate HeadTop(w: World, t: Tables, regk: Said)
    requires regk in t.heads
  {
    var h := t.heads[regk];
    var slot := Slot(regk, w.doc(h).sn);
    h in t.evts && slot in t.tels && t.tels[slot] == h && Slot(regk, slot.sn + 1) !in t.tels
  }

  ghost predicate Heads(w: World, t: Tables) {
    && (forall regk | regk in t.heads :: HeadTop(w, t, regk))
    && (forall slot | slot in t.tels :: slot.regk in t.heads)
  }

  /** Escrowed events are stored, sit at their own slot, and their slot is undecided. */
  ghost predicate Escrowed(w: World, t: Tables, slot: Slot, s: Said) {
    s in t.evts && SlotOf(w.doc(s)) == slot && slot !in t.tels
  }

  ghost predicate Missing(w: World, t: Tables) {
    forall slot, s | s in Entries(t.maes, slot) :: Escrowed(w, t, slot, s)
  }

  /** Events queued out of order are anchored updates. */
  ghost predicate Queued(w: World, t: Tables) {
    forall slot, s | s in Entries(t.ooes, slot) ::
      Escrowed(w, t, slot, s) && s in t.ancs && w.doc(s).ilk == Bup && slot.sn >= 1
  }

  ghost predicate Core(w: World, t: Tables) {
    Bodies(w, t) && Seals(w, t) && Log(w, t) && Heads(w, t) && Missing(w, t) && Queued(w, t)
  }

  /** Nothing that could be committed is left in the queue: at every slot with queued events, save a
      possible hole, the predecessor is still unknown. */
  ghost predicate Quiet(t: Tables, hole: Option<Slot>) {
    forall slot | Entries(t.ooes, slot) != [] && hole != Some(slot) ::
      slot.sn >= 1 && Slot(slot.regk, slot.sn - 1) !in t.tels
  }

  /** Only events without an anchor wait for one, save those still to be looked at. */
  ghost predicate Waiting(t: Tables, pending: set<Said>) {
    forall slot, s | s in Entries(t.maes, slot) && s in t.ancs :: s in pending
  }

  ghost predicate Inv(w: World, t: Tables) {
    Core(w, t) && Quiet(t, None) && Waiting(t, {})
  }

  ghost predicate Lists(t: Tables) {
    forall slot :: Distinct(Entries(t.maes, slot)) && Distinct(Entries(t.ooes, slot))
  }

  /** Bodies stay as they are, and an anchor only gives way to an earlier one. */
  ghost predicate Retains(t: Tables, t': Tables) {
    && t.evts.Keys <= t'.evts.Keys && t.ancs.Keys <= t'.ancs.Keys
    && (forall s | s in t.evts :: t'.evts[s] == t.evts[s])
    && (forall s | s in t.ancs :: t'.ancs[s].sn <= t.ancs[s].sn)
  }

  /** Nothing is lost: log entries and bodies stay as they are, and anchors are only replaced by earlier ones. */
  ghost predicate Grows(t: Tables, t': Tables) {
    (forall slot | slot in t.tels :: slot in t'.tels && t'.tels[slot] == t.tels[slot]) && Retains(t, t')
  }

  lemma EmptyInv(w: World)
    ensures Inv(w, EMPTY)
  {
  }

  // ----- what the engine's moves keep --------------------------------------------------------

  /** t' has the log and heads of t, all its bodies and anchors, and no new escrow entries. */
  ghost predicate Carried(t: Tables, t': Tables) {
    && t'.tels == t.tels && t'.heads == t.heads && Retains(t, t')
    && (forall slot, s | s in Entries(t'.maes, slot) :: s in Entries(t.maes, slot))
    && (forall slot, s | s in Entries(t'.ooes, slot) :: s in Entries(t.ooes, slot))
  }

  lemma CarriedLog(w: World, t: Tables, t': Tables)
    requires Log(w, t) && Carried(t, t')
    ensures Log(w, t')
  {
    forall slot | slot in t'.tels ensures Entry(w, t', slot) {
      assert Entry(w, t, slot);
    }
  }

  lemma CarriedHeads(w: World, t: Tables, t': Tables)
    requires Heads(w, t) && Carried(t, t')
    ensures Heads(w, t')
  {
    forall regk | regk in t'.heads ensures HeadTop(w, t', regk) {
      assert HeadTop(w, t, regk);
    }
  }

  lemma CarriedEscrows(w: World, t: Tables, t': Tables)
    requires Missing(w, t) && Queued(w, t) && Carried(t, t')
    ensures Missing(w, t') && Queued(w, t')
  {
    forall slot, s | s in Entries(t'.maes, slot) ensures Escrowed(w, t', slot, s) {
      assert Escrowed(w, t, slot, s);
    }
    forall slot, s | s in Entries(t'.ooes, slot)
      ensures Escrowed(w, t', slot, s) && s in t'.ancs && w.doc(s).ilk == Bup && slot.sn >= 1
    {
      assert Escrowed(w, t, slot, s);
    }
  }

  lemma CarriedQuiet(t: Tables, t': Tables, hole: Option<Slot>)
    requires Quiet(t, hole) && Carried(t, t')
    ensures Quiet(t', hole)
  {
    forall slot | Entries(t'.ooes, slot) != [] && hole != Some(slot)
      ensures slot.sn >= 1 && Slot(slot.regk, slot.sn - 1) !in t'.tels
    {
      assert Entries(t'.ooes, slot)[0] in Entries(t.ooes, slot);
    }
  }

  lemma CarriedKeeps(w: World, t: Tables, t': Tables, hole: Option<Slot>)
    requires Core(w, t) && Quiet(t, hole) && Carried(t, t') && Bodies(w, t') && Seals(w, t')
    ensures Core(w, t') && Quiet(t', hole) && Grows(t, t')
  {
    CarriedLog(w, t, t');
    CarriedHeads(w, t, t');
    CarriedEscrows(w, t, t');
    CarriedQuiet(t, t', hole);
  }

  lemma PutEventKeeps(w: World, t: Tables, e: Serder, pending: set<Said>, hole: Option<Slot>)
    requires Core(w, t) && Quiet(t, hole) && Waiting(t, pending) && w.doc(e.said) == e
    ensures var t' := Step(t, EventPut(e));
            Core(w, t') && Quiet(t', hole) && Waiting(t', pending) && Grows(t, t') && e.said in t'.evts
  {
    CarriedKeeps(w, t, Step(t, EventPut(e)), hole);
  }

  lemma AnchorPutSeals(w: World, t: Tables, s: Said, a: Seal)
    requires Bodies(w, t) && Seals(w, t) && s in t.evts && w.sealed(w.doc(s), a)
    ensures Bodies(w, Step(t, AnchorPut(s, a))) && Seals(w, Step(t, AnchorPut(s, a)))
  {
  }

  lemma AnchorPutCarries(t: Tables, s: Said, a: Seal)
    ensures var t' := Step(t, AnchorPut(s, a));
            Carried(t, t') && s in t'.ancs && t'.ancs.Keys == t.ancs.Keys + {s}
  {
  }

  lemma PutAnchorKeeps(w: World, t: Tables, s: Said, a: Seal, pending: set<Said>, hole: Option<Slot>)
    requires Core(w, t) && Quiet(t, hole) && Waiting(t, pending) && s in t.evts && w.sealed(w.doc(s), a)
    ensures var t' := Step(t, AnchorPut(s, a));
            Core(w, t') && Quiet(t', hole) && Waiting(t', pending + {s}) && Grows(t, t') && s in t'.ancs
  {
    var t' := Step(t, AnchorPut(s, a));
    AnchorPutSeals(w, t, s, a);
    AnchorPutCarries(t, s, a);
    CarriedKeeps(w, t, t', hole);
    forall slot, x | x in Entries(t'.maes, slot) && x in t'.ancs ensures x in pending + {s} {
      assert x in t'.ancs.Keys;
    }
  }

  /** t' differs from t only in that some escrow entries are gone. */
  ghost predicate Pruned(t: Tables, t': Tables) {
    Carried(t, t') && t'.evts == t.evts && t'.ancs == t.ancs
  }

  lemma PruneKeeps(w: World, t: Tables, t': Tables, pending: set<Said>, hole: Option<Slot>)
    requires Core(w, t) && Quiet(t, hole) && Waiting(t, pending) && Pruned(t, t')
    ensures Core(w, t') && Quiet(t', hole) && Waiting(t', pending) && Grows(t, t')
  {
    CarriedKeeps(w, t, t', hole);
  }

  lemma {:induction false} RemSubset(s: seq<Said>, x: Said, y: Said)
    ensures y in Rem(s, x) ==> y in s
  {
    if s != [] {
      RemSubset(s[1..], x, y);
    }
  }

  lemma RemAtSubset(m: map<Slot, seq<Said>>, slot: Slot, x: Said)
    ensures forall other, y | y in Entries(RemAt(m, slot, x), other) :: y in Entries(m, other)
  {
    forall y { RemSubset(Entries(m, slot), x, y); }
  }

  lemma RemPrunes(t: Tables, slot: Slot, x: Said)
    ensures Pruned(t, Step(t, MissingAnchorRemoved(slot, x)))
    ensures Pruned(t, Step(t, OutOfOrderRemoved(slot, x)))
  {
    RemAtSubset(t.maes, slot, x);
    RemAtSubset(t.ooes, slot, x);
  }

  lemma PrunedTrans(t: Tables, t': Tables, t'': Tables)
    requires Pruned(t, t') && Pruned(t', t'')
    ensures Pruned(t, t'')
  {
  }

  lemma LogSame(w: World, t: Tables, t': Tables)
    requires Log(w, t) && t' == t.(maes := t'.maes, ooes := t'.ooes)
    ensures Log(w, t')
  {
    forall slot | slot in t'.tels ensures Entry(w, t', slot) {
      assert Entry(w, t, slot);
    }
  }

  lemma HeadsSame(w: World, t: Tables, t': Tables)
    requires Heads(w, t) && t' == t.(maes := t'.maes, ooes := t'.ooes)
    ensures Heads(w, t')
  {
    forall regk | regk in t'.heads ensures HeadTop(w, t', regk) {
      assert HeadTop(w, t, regk);
    }
  }

  lemma LogUnchanged(w: World, t: Tables, t': Tables)
    requires Core(w, t) && t' == t.(maes := t'.maes, ooes := t'.ooes)
    ensures Bodies(w, t') && Seals(w, t') && Log(w, t') && Heads(w, t') && Grows(t, t')
  {
    LogSame(w, t, t');
    HeadsSame(w, t, t');
  }

  lemma QueuedUnchanged(w: World, t: Tables, t': Tables)
    requires Queued(w, t) && t' == t.(maes := t'.maes)
    ensures Queued(w, t')
  {
    forall slot, s | s in Entries(t'.ooes, slot)
      ensures Escrowed(w, t', slot, s) && s in t'.ancs && w.doc(s).ilk == Bup && slot.sn >= 1
    {
      assert Escrowed(w, t, slot, s);
    }
  }

  lemma MissingUnchanged(w: World, t: Tables, t': Tables, pending: set<Said>)
    requires Core(w, t) && Waiting(t, pending) && t' == t.(ooes := t'.ooes)
    ensures Missing(w, t') && Waiting(t', pending)
  {
    forall slot, s | s in Entries(t'.maes, slot) ensures Escrowed(w, t', slot, s) {
      assert Escrowed(w, t, slot, s);
    }
  }

  lemma MissingAdds(w: World, t: Tables, s: Said, t': Tables, pending: set<Said>)
    requires Missing(w, t) && Waiting(t, pending) && s in t.evts && s !in t.ancs && SlotOf(w.doc(s)) !in t.tels
    requires t' == t.(maes := AddAt(t.maes, SlotOf(w.doc(s)), s))
    ensures Missing(w, t') && Waiting(t', pending)
  {
    forall slot, x | x in Entries(t'.maes, slot)
      ensures Escrowed(w, t', slot, x) && (x in t'.ancs ==> x in pending)
    {
      AddedEntries(t.maes, SlotOf(w.doc(s)), s, slot, x);
      assert x in Entries(t.maes, slot) ==> Escrowed(w, t, slot, x);
    }
  }

  lemma AddedEntries(m: map<Slot, seq<Said>>, home: Slot, s: Said, slot: Slot, x: Said)
    ensures x in Entries(AddAt(m, home, s), slot) <==> x in Entries(m, slot) || (slot == home && x == s)
    ensures slot != home ==> Entries(AddAt(m, home, s), slot) == Entries(m, slot)
  {
  }

  /** Staging a stored event that has no anchor yet, at its own undecided slot. */
  lemma EscrowMissingKeeps(w: World, t: Tables, s: Said, t': Tables, pending: set<Said>)
    requires Core(w, t) && Quiet(t, None) && Waiting(t, pending)
    requires s in t.evts && s !in t.ancs && SlotOf(w.doc(s)) !in t.tels
    requires t' == t.(maes := AddAt(t.maes, SlotOf(w.doc(s)), s))
    ensures Core(w, t') && Quiet(t', None) && Waiting(t', pending) && Grows(t, t')
  {
    LogUnchanged(w, t, t');
    QueuedUnchanged(w, t, t');
    MissingAdds(w, t, s, t', pending);
  }

  lemma QueueAdds(w: World, t: Tables, s: Said, t': Tables)
    requires Queued(w, t) && s in t.evts && s in t.ancs && w.doc(s).ilk == Bup && w.doc(s).sn >= 1
    requires SlotOf(w.doc(s)) !in t.tels && t' == t.(ooes := AddAt(t.ooes, SlotOf(w.doc(s)), s))
    ensures Queued(w, t')
  {
    forall slot, x | x in Entries(t'.ooes, slot)
      ensures Escrowed(w, t', slot, x) && x in t'.ancs && w.doc(x).ilk == Bup && slot.sn >= 1
    {
      AddedEntries(t.ooes, SlotOf(w.doc(s)), s, slot, x);
      assert x in Entries(t.ooes, slot) ==> Escrowed(w, t, slot, x);
    }
  }

  lemma QueueQuiet(t: Tables, home: Slot, s: Said, t': Tables, hole: Option<Slot>)
    requires Quiet(t, hole) && t'.tels == t.tels && t'.ooes == AddAt(t.ooes, home, s)
    requires home.sn >= 1 && Slot(home.regk, home.sn - 1) !in t.tels
    ensures Quiet(t', hole)
  {
    forall slot | Entries(t'.ooes, slot) != [] && hole != Some(slot)
      ensures slot.sn >= 1 && Slot(slot.regk, slot.sn - 1) !in t'.tels
    {
      AddedEntries(t.ooes, home, s, slot, s);
    }
  }

  lemma QueueStaged(w: World, t: Tables, s: Said, t': Tables)
    requires Queued(w, t) && Quiet(t, None)
    requires s in t.evts && s in t.ancs && w.doc(s).ilk == Bup && w.doc(s).sn >= 1
    requires SlotOf(w.doc(s)) !in t.tels && Slot(RegkOf(w.doc(s)), w.doc(s).sn - 1) !in t.tels
    requires t' == t.(ooes := AddAt(t.ooes, SlotOf(w.doc(s)), s))
    ensures Queued(w, t') && Quiet(t', None)
  {
    QueueAdds(w, t, s, t');
    QueueQuiet(t, SlotOf(w.doc(s)), s, t', None);
  }

  /** Queueing an anchored update whose predecessor is not logged. */
  lemma EscrowQueueKeeps(w: World, t: Tables, s: Said, t': Tables, pending: set<Said>)
    requires Core(w, t) && Quiet(t, None) && Waiting(t, pending)
    requires s in t.evts && s in t.ancs && w.doc(s).ilk == Bup && w.doc(s).sn >= 1
    requires SlotOf(w.doc(s)) !in t.tels && Slot(RegkOf(w.doc(s)), w.doc(s).sn - 1) !in t.tels
    requires t' == t.(ooes := AddAt(t.ooes, SlotOf(w.doc(s)), s))
    ensures Core(w, t') && Quiet(t', None) && Waiting(t', pending) && Grows(t, t')
  {
    LogUnchanged(w, t, t');
    MissingUnchanged(w, t, t', pending);
    QueueStaged(w, t, s, t');
  }

  // ----- committing --------------------------------------------------------------------------

  /** The event may be committed at its slot: stored, anchored, in order, and the slot is free. */
  ghost predicate Ready(w: World, t: Tables, s: Said) {
    var e := w.doc(s);
    var slot := SlotOf(e);
    && s in t.evts && s in t.ancs && slot !in t.tels
    && ((e.ilk == Rip && slot.sn == 0)
        || (e.ilk == Bup && slot.sn > 0 && Slot(slot.regk, slot.sn - 1) in t.tels
            && e.prior == t.tels[Slot(slot.regk, slot.sn - 1)]))
  }

  /** The tables after a commit: accepted, and the slot's escrows emptied. */
  ghost predicate Committed(t: Tables, slot: Slot, e: Serder, t': Tables) {
    && t' == Step(t, Accepted(slot, e)).(maes := t'.maes, ooes := t'.ooes)
    && Emptied(t.maes, slot, t'.maes) && Emptied(t.ooes, slot, t'.ooes)
  }

  ghost predicate Emptied(m: map<Slot, seq<Said>>, slot: Slot, m': map<Slot, seq<Said>>) {
    && Entries(m', slot) == []
    && forall other | other != slot :: Entries(m', other) == Entries(m, other)
  }

  lemma EntryBelow(w: World, t: Tables, slot: Slot)
    requires Log(w, t) && slot in t.tels && slot.sn > 0
    ensures Slot(slot.regk, slot.sn - 1) in t.tels
  {
    assert Entry(w, t, slot);
  }

  lemma {:induction false} BelowLogged(w: World, t: Tables, regk: Said, n: nat, m: nat)
    requires Log(w, t) && Slot(regk, n) in t.tels && m <= n
    ensures Slot(regk, m) in t.tels
    decreases n
  {
    if m < n {
      EntryBelow(w, t, Slot(regk, n));
      BelowLogged(w, t, regk, n - 1, m);
    }
  }

  lemma NothingAbove(w: World, t: Tables, slot: Slot)
    requires Log(w, t) && slot !in t.tels
    ensures Slot(slot.regk, slot.sn + 1) !in t.tels
  {
    if Slot(slot.regk, slot.sn + 1) in t.tels {
      EntryBelow(w, t, Slot(slot.regk, slot.sn + 1));
    }
  }

  /** The log, heads, bodies and anchors after a commit. */
  ghost predicate Extended(t: Tables, slot: Slot, s: Said, t': Tables) {
    && slot !in t.tels && t'.tels == t.tels[slot := s] && t'.heads == t.heads[slot.regk := s]
    && Retains(t, t') && s in t'.evts
  }

  lemma CommitExtends(w: World, t: Tables, e: Serder, t': Tables)
    requires Bodies(w, t) && Seals(w, t) && w.doc(e.said) == e && Ready(w, t, e.said)
    requires Committed(t, SlotOf(e), e, t')
    ensures Bodies(w, t') && Seals(w, t') && Extended(t, SlotOf(e), e.said, t') && t'.ancs == t.ancs
  {
  }

  lemma CommitEntry(w: World, t: Tables, slot: Slot, s: Said, t': Tables, other: Slot)
    requires Log(w, t) && Extended(t, slot, s, t') && Ready(w, t, s) && SlotOf(w.doc(s)) == slot
    requires other in t'.tels
    ensures Entry(w, t', other)
  {
    if other != slot {
      assert Entry(w, t, other);
    }
  }

  lemma CommitHead(w: World, t: Tables, slot: Slot, s: Said, t': Tables, regk: Said)
    requires Heads(w, t) && Extended(t, slot, s, t') && SlotOf(w.doc(s)) == slot
    requires regk in t'.heads && Slot(slot.regk, slot.sn + 1) !in t.tels
    ensures HeadTop(w, t', regk)
  {
    if regk == slot.regk {
      assert t'.heads[regk] == s;
    } else {
      assert HeadTop(w, t, regk);
    }
  }

  lemma CommitChain(w: World, t: Tables, slot: Slot, s: Said, t': Tables)
    requires Log(w, t) && Heads(w, t) && Extended(t, slot, s, t') && Ready(w, t, s) && SlotOf(w.doc(s)) == slot
    ensures Log(w, t') && Heads(w, t')
  {
    forall other | other in t'.tels ensures Entry(w, t', other) && other.regk in t'.heads {
      CommitEntry(w, t, slot, s, t', other);
    }
    NothingAbove(w, t, slot);
    forall regk | regk in t'.heads ensures HeadTop(w, t', regk) {
      CommitHead(w, t, slot, s, t', regk);
    }
  }

  lemma CommitEscrows(w: World, t: Tables, slot: Slot, s: Said, t': Tables, pending: set<Said>)
    requires Missing(w, t) && Queued(w, t) && Waiting(t, pending) && Extended(t, slot, s, t') && t'.ancs == t.ancs
    requires Emptied(t.maes, slot, t'.maes) && Emptied(t.ooes, slot, t'.ooes)
    ensures Missing(w, t') && Queued(w, t') && Waiting(t', pending)
  {
    forall other, x | x in Entries(t'.maes, other) ensures Escrowed(w, t', other, x) {
      assert other != slot;
      assert Escrowed(w, t, other, x);
    }
    forall other, x | x in Entries(t'.ooes, other)
      ensures Escrowed(w, t', other, x) && x in t'.ancs && w.doc(x).ilk == Bup && other.sn >= 1
    {
      assert other != slot;
      assert Escrowed(w, t, other, x);
    }
  }

  function NextSlot(slot: Slot): Slot {
    Slot(slot.regk, slot.sn + 1)
  }

  lemma CommitQuiet(t: Tables, slot: Slot, s: Said, t': Tables)
    requires Quiet(t, Some(slot)) && Extended(t, slot, s, t') && Emptied(t.ooes, slot, t'.ooes)
    ensures Quiet(t', Some(NextSlot(slot)))
  {
    forall other | Entries(t'.ooes, other) != [] && other != NextSlot(slot)
      ensures other.sn >= 1 && Slot(other.regk, other.sn - 1) !in t'.tels
    {
      assert other != slot && Entries(t.ooes, other) != [];
    }
  }

  lemma CommitCore(w: World, t: Tables, e: Serder, t': Tables)
    requires Core(w, t) && w.doc(e.said) == e && Ready(w, t, e.said) && Committed(t, SlotOf(e), e, t')
    ensures Bodies(w, t') && Seals(w, t') && Log(w, t') && Heads(w, t')
    ensures Extended(t, SlotOf(e), e.said, t') && t'.ancs == t.ancs
  {
    CommitExtends(w, t, e, t');
    CommitChain(w, t, SlotOf(e), e.said, t');
  }

  lemma CommitWaits(w: World, t: Tables, e: Serder, t': Tables, pending: set<Said>)
    requires Core(w, t) && Quiet(t, Some(SlotOf(e))) && Waiting(t, pending)
    requires Extended(t, SlotOf(e), e.said, t') && t'.ancs == t.ancs && Committed(t, SlotOf(e), e, t')
    ensures Missing(w, t') && Queued(w, t') && Quiet(t', Some(NextSlot(SlotOf(e)))) && Waiting(t', pending)
  {
    CommitEscrows(w, t, SlotOf(e), e.said, t', pending);
    CommitQuiet(t, SlotOf(e), e.said, t');
  }

  lemma ExtendedGrows(t: Tables, slot: Slot, s: Said, t': Tables)
    requires Extended(t, slot, s, t')
    ensures Grows(t, t')
  {
  }

  /** A commit keeps everything except that events queued right behind it may now be ready. */
  lemma CommitKeeps(w: World, t: Tables, e: Serder, t': Tables, pending: set<Said>)
    requires Core(w, t) && Quiet(t, Some(SlotOf(e))) && Waiting(t, pending)
    requires w.doc(e.said) == e && Ready(w, t, e.said) && Committed(t, SlotOf(e), e, t')
    ensures Core(w, t') && Quiet(t', Some(NextSlot(SlotOf(e)))) && Waiting(t', pending) && Grows(t, t')
  {
    CommitCore(w, t, e, t');
    CommitWaits(w, t, e, t', pending);
    ExtendedGrows(t, SlotOf(e), e.said, t');
  }

  /** An event that no longer stands in the missing-anchor escrow need not be looked at. */
  lemma WaitingDrops(w: World, t: Tables, s: Said, pending: set<Said>)
    requires Missing(w, t) && Waiting(t, pending) && s !in Entries(t.maes, SlotOf(w.doc(s)))
    ensures Waiting(t, pending - {s})
  {
    forall slot, x | x in Entries(t.maes, slot) && x in t.ancs ensures x in pending - {s} {
      assert Escrowed(w, t, slot, x);
    }
  }

  lemma DecidedIsNotEscrowed(w: World, t: Tables, s: Said)
    requires Missing(w, t) && SlotOf(w.doc(s)) in t.tels
    ensures s !in Entries(t.maes, SlotOf(w.doc(s)))
  {
    if s in Entries(t.maes, SlotOf(w.doc(s))) {
      EscrowedIsOpen(w, t, SlotOf(w.doc(s)), s);
    }
  }

  lemma EscrowedIsOpen(w: World, t: Tables, slot: Slot, s: Said)
    requires Missing(w, t) && s in Entries(t.maes, slot)
    ensures slot !in t.tels
  {
    assert Escrowed(w, t, slot, s);
  }

  lemma LoggedExact(w: World, t: Tables, slot: Slot)
    requires Bodies(w, t) && Log(w, t)
    ensures Logged(t, slot) == if slot in t.tels then Some(w.doc(t.tels[slot])) else None
    ensures slot in t.tels ==> Logged(t, slot).value.said == t.tels[slot]
  {
    if slot in t.tels {
      assert Entry(w, t, slot);
    }
  }

  /** A valid event of a free slot whose predecessor, if it has one, is logged, may be committed. */
  lemma ValidIsReady(w: World, t: Tables, bound: Option<Said>, issuer: string, e: Serder)
    requires Bodies(w, t) && Log(w, t) && w.doc(e.said) == e && e.said in t.evts && e.said in t.ancs
    requires Validate(t, bound, issuer, e).Ok? && Validate(t, bound, issuer, e).value.existing.None?
    requires e.ilk.Rip? || Validate(t, bound, issuer, e).value.prior.Some?
    ensures Ready(w, t, e.said)
  {
    LoggedExact(w, t, SlotOf(e));
    if !e.ilk.Rip? {
      LoggedExact(w, t, Slot(RegkOf(e), e.sn - 1));
    }
  }

  lemma ValidFree(w: World, t: Tables, bound: Option<Said>, issuer: string, e: Serder)
    requires Bodies(w, t) && Log(w, t) && Validate(t, bound, issuer, e).Ok?
    ensures var checked := Validate(t, bound, issuer, e).value;
            && (checked.existing.Some? <==> SlotOf(e) in t.tels)
            && (SlotOf(e) in t.tels ==> t.tels[SlotOf(e)] == e.said)
            && (e.ilk.Rip? || e.ilk.Bup?) && (e.ilk.Bup? ==> e.sn >= 1)
            && (e.ilk.Bup? ==> (checked.prior.Some? <==> Slot(RegkOf(e), e.sn - 1) in t.tels))
  {
    LoggedExact(w, t, SlotOf(e));
    if e.ilk.Bup? {
      LoggedExact(w, t, Slot(RegkOf(e), e.sn - 1));
    }
  }
}
