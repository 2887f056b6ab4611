/** What every run of the registry store keeps, whatever its callers do. */
module RegistryRuns {
  import opened RegistryTables
  import opened InsertionSets

  // ----- the log -----------------------------------------------------------------------------

  predicate AcceptsAt(op: Op, slot: Slot) {
    op.Accepted? && op.slot == slot
  }

  /** Operation i is the first to accept an event at the slot. */
  predicate FirstAccept(ops: seq<Op>, slot: Slot, i: nat) {
    i < |ops| && AcceptsAt(ops[i], slot) && forall j | 0 <= j < i :: !AcceptsAt(ops[j], slot)
  }

  lemma StepLog(t: Tables, op: Op, slot: Slot)
    ensures slot in t.tels ==> slot in Step(t, op).tels && Step(t, op).tels[slot] == t.tels[slot]
    ensures slot !in t.tels ==> (slot in Step(t, op).tels <==> AcceptsAt(op, slot))
    ensures slot !in t.tels && AcceptsAt(op, slot) ==> Step(t, op).tels[slot] == op.serder.said
  {
  }

  predicate Accepts(ops: seq<Op>, n: nat, slot: Slot) {
    exists i: nat | i < n :: FirstAccept(ops, slot, i)
  }

  lemma AcceptsStep(ops: seq<Op>, n: nat, slot: Slot)
    requires n < |ops|
    ensures Accepts(ops, n + 1, slot) <==> Accepts(ops, n, slot) || AcceptsAt(ops[n], slot)
    ensures FirstAccept(ops, slot, n) <==> AcceptsAt(ops[n], slot) && !Accepts(ops, n, slot)
  {
    if AcceptsAt(ops[n], slot) && !FirstAccept(ops, slot, n) {
      var j :| 0 <= j < n && AcceptsAt(ops[j], slot);
      FirstUpTo(ops, slot, j);
    }
  }

  lemma {:induction false} FirstUpTo(ops: seq<Op>, slot: Slot, j: nat)
    requires j < |ops| && AcceptsAt(ops[j], slot)
    ensures exists i: nat | i <= j :: FirstAccept(ops, slot, i)
    decreases j
  {
    if !FirstAccept(ops, slot, j) {
      var l :| 0 <= l < j && AcceptsAt(ops[l], slot);
      FirstUpTo(ops, slot, l);
    }
  }

  /** The tables after n operations of a run. */
  function After(ops: seq<Op>, n: nat): Tables
    requires n <= |ops|
  {
    Run(ops[..n])
  }

  lemma AfterStep(ops: seq<Op>, n: nat)
    requires n < |ops|
    ensures After(ops, n + 1) == Step(After(ops, n), ops[n])
  {
    assert ops[..n + 1] == ops[..n] + [ops[n]];
    RunStep(ops[..n], ops[n]);
  }

  /** A log entry exists exactly when some event was accepted at its slot. */
  lemma {:induction false} LogSlots(ops: seq<Op>, n: nat, slot: Slot)
    requires n <= |ops|
    ensures slot in After(ops, n).tels <==> Accepts(ops, n, slot)
    decreases n
  {
    if n > 0 {
      LogSlots(ops, n - 1, slot);
      AcceptsStep(ops, n - 1, slot);
      AfterStep(ops, n - 1);
      StepLog(After(ops, n - 1), ops[n - 1], slot);
    }
  }

  /** A log entry is the event accepted first at its slot, at any later point of the run: it is
      written once. */
  lemma {:induction false} LogWriteOnce(ops: seq<Op>, n: nat, slot: Slot, i: nat)
    requires i < n <= |ops| && FirstAccept(ops, slot, i)
    ensures slot in After(ops, n).tels && After(ops, n).tels[slot] == ops[i].serder.said
    decreases n
  {
    AfterStep(ops, n - 1);
    StepLog(After(ops, n - 1), ops[n - 1], slot);
    if i < n - 1 {
      LogWriteOnce(ops, n - 1, slot, i);
    } else {
      AcceptsStep(ops, i, slot);
      LogSlots(ops, i, slot);
    }
  }

  /** Every SAID in the log and in the heads has a body stored under its own SAID. */
  predicate Backed(t: Tables) {
    && (forall s | s in t.evts :: t.evts[s].said == s)
    && (forall slot | slot in t.tels :: t.tels[slot] in t.evts)
    && (forall regk | regk in t.heads :: t.heads[regk] in t.evts)
  }

  lemma StepBacked(t: Tables, op: Op)
    requires Backed(t)
    ensures Backed(Step(t, op))
  {
  }

  lemma {:induction false} NeverDangling(ops: seq<Op>)
    ensures Backed(Run(ops))
    decreases |ops|
  {
    if ops != [] {
      NeverDangling(ops[..|ops| - 1]);
      StepBacked(Run(ops[..|ops| - 1]), ops[|ops| - 1]);
    }
  }

  /** Only acceptance touches the log and the heads. */
  lemma OnlyAcceptCommits(t: Tables, op: Op)
    requires Step(t, op).tels != t.tels || Step(t, op).heads != t.heads
    ensures op.Accepted?
  {
  }

  // ----- bodies ------------------------------------------------------------------------------

  /** The operation stores the body of the SAID. */
  predicate StoresBody(op: Op, said: Said) {
    (op.EventPut? && op.serder.said == said) || (op.Accepted? && op.serder.said == said)
  }

  predicate NoBodyStored(ops: seq<Op>, lo: nat, hi: nat, said: Said)
    requires hi <= |ops|
  {
    forall j | lo <= j < hi :: !StoresBody(ops[j], said)
  }

  lemma StepBody(t: Tables, op: Op, said: Said)
    ensures StoresBody(op, said) ==> said in Step(t, op).evts && Step(t, op).evts[said] == op.serder
    ensures !StoresBody(op, said) ==> (said in Step(t, op).evts <==> said in t.evts)
    ensures !StoresBody(op, said) && said in t.evts ==> Step(t, op).evts[said] == t.evts[said]
  {
  }

  /** A body is there once it is stored, by a put or an acceptance, and it is the one stored last. */
  lemma {:induction false} BodyIsLast(ops: seq<Op>, n: nat, said: Said, i: nat)
    requires i < n <= |ops| && StoresBody(ops[i], said) && NoBodyStored(ops, i + 1, n, said)
    ensures said in After(ops, n).evts && After(ops, n).evts[said] == ops[i].serder
    decreases n
  {
    AfterStep(ops, n - 1);
    StepBody(After(ops, n - 1), ops[n - 1], said);
    if i < n - 1 {
      BodyIsLast(ops, n - 1, said, i);
    }
  }

  lemma {:induction false} NoBody(ops: seq<Op>, n: nat, said: Said)
    requires n <= |ops| && NoBodyStored(ops, 0, n, said)
    ensures said !in After(ops, n).evts
    decreases n
  {
    if n > 0 {
      AfterStep(ops, n - 1);
      StepBody(After(ops, n - 1), ops[n - 1], said);
      NoBody(ops, n - 1, said);
    }
  }

  // ----- heads -------------------------------------------------------------------------------

  predicate AcceptsFor(op: Op, regk: Said) {
    op.Accepted? && op.slot.regk == regk
  }

  predicate QuietFor(ops: seq<Op>, lo: nat, hi: nat, regk: Said)
    requires hi <= |ops|
  {
    forall j | lo <= j < hi :: !AcceptsFor(ops[j], regk)
  }

  lemma StepHead(t: Tables, op: Op, regk: Said)
    ensures AcceptsFor(op, regk) ==> regk in Step(t, op).heads && Step(t, op).heads[regk] == op.serder.said
    ensures !AcceptsFor(op, regk) ==> (regk in Step(t, op).heads <==> regk in t.heads)
    ensures !AcceptsFor(op, regk) && regk in t.heads ==> Step(t, op).heads[regk] == t.heads[regk]
  {
  }

  /** A registry without an acceptance has no head. */
  lemma {:induction false} NoHead(ops: seq<Op>, n: nat, regk: Said)
    requires n <= |ops| && QuietFor(ops, 0, n, regk)
    ensures regk !in After(ops, n).heads
    decreases n
  {
    if n > 0 {
      NoHead(ops, n - 1, regk);
      AfterStep(ops, n - 1);
      StepHead(After(ops, n - 1), ops[n - 1], regk);
    }
  }

  /** The head of a registry is the event accepted last for it. */
  lemma {:induction false} HeadIsLast(ops: seq<Op>, n: nat, regk: Said, i: nat)
    requires i < n <= |ops| && AcceptsFor(ops[i], regk) && QuietFor(ops, i + 1, n, regk)
    ensures regk in After(ops, n).heads && After(ops, n).heads[regk] == ops[i].serder.said
    decreases n
  {
    AfterStep(ops, n - 1);
    StepHead(After(ops, n - 1), ops[n - 1], regk);
    if i < n - 1 {
      HeadIsLast(ops, n - 1, regk, i);
    }
  }

  ghost predicate TopIs(tels: map<Slot, Said>, regk: Said, n: nat) {
    Slot(regk, n) in tels && forall m: nat | Slot(regk, m) in tels :: m <= n
  }

  /** The cached head is the log entry with the highest number. */
  ghost predicate HeadAgrees(t: Tables, regk: Said) {
    forall n: nat | TopIs(t.tels, regk, n) :: regk in t.heads && t.heads[regk] == t.tels[Slot(regk, n)]
  }

  /** An acceptance leaves head and log in agreement exactly when it goes beyond the top of the log, or
      repeats the event at the top. */
  lemma AcceptKeepsHead(t: Tables, slot: Slot, e: Serder, top: nat)
    requires TopIs(t.tels, slot.regk, top)
    ensures HeadAgrees(Step(t, Accepted(slot, e)), slot.regk) <==>
            slot.sn > top || e.said == t.tels[Slot(slot.regk, top)]
  {
    var t' := Step(t, Accepted(slot, e));
    if slot.sn > top {
      assert TopIs(t'.tels, slot.regk, slot.sn);
    } else {
      assert TopIs(t'.tels, slot.regk, top);
    }
  }

  /** On an empty log there is no top, and any acceptance leaves head and log in agreement. */
  lemma FirstAcceptKeepsHead(t: Tables, slot: Slot, e: Serder)
    requires forall n: nat :: Slot(slot.regk, n) !in t.tels
    ensures HeadAgrees(Step(t, Accepted(slot, e)), slot.regk)
  {
  }

  /** Accepting a second event at slot 0 leaves the log alone but moves the head off it. */
  lemma HeadCanDisagree(e0: Serder, e1: Serder)
    requires e0.said != e1.said
    ensures var ops := [Accepted(Slot("R", 0), e0), Accepted(Slot("R", 0), e1)];
            !HeadAgrees(Run(ops), "R")
  {
    var first, second := Accepted(Slot("R", 0), e0), Accepted(Slot("R", 0), e1);
    RunStep([], first);
    RunStep([first], second);
    assert [] + [first] == [first] && [first] + [second] == [first, second];
    assert TopIs(Run([first]).tels, "R", 0);
    AcceptKeepsHead(Run([first]), Slot("R", 0), e1, 0);
  }

  function AcceptCount(ops: seq<Op>, regk: Said): nat {
    if ops == [] then 0
    else AcceptCount(ops[..|ops| - 1], regk) + if AcceptsFor(ops[|ops| - 1], regk) then 1 else 0
  }

  /** The strict chain rule: each acceptance uses the next sequence number of its registry. */
  predicate Strict(ops: seq<Op>) {
    forall i | 0 <= i < |ops| && ops[i].Accepted? ::
      ops[i].slot.sn == AcceptCount(ops[..i], ops[i].slot.regk)
  }

  /** In a strict run the log of a registry is 0..n without gaps and its head is the entry at n. */
  lemma {:induction false} StrictLog(ops: seq<Op>, regk: Said)
    requires Strict(ops)
    ensures var n, t := AcceptCount(ops, regk), Run(ops);
            && (forall sn: nat :: Slot(regk, sn) in t.tels <==> sn < n)
            && (regk in t.heads <==> n > 0)
            && (n > 0 ==> t.heads[regk] == t.tels[Slot(regk, n - 1)])
    decreases |ops|
  {
    if ops != [] {
      var k := |ops| - 1;
      StrictFront(ops);
      StrictLog(ops[..k], regk);
      if ops[k].Accepted? {
        StrictLog(ops[..k], ops[k].slot.regk);
      }
    }
  }

  lemma StrictFront(ops: seq<Op>)
    requires Strict(ops) && ops != []
    ensures Strict(ops[..|ops| - 1])
  {
    var front := ops[..|ops| - 1];
    assert forall i | 0 <= i < |front| :: front[i] == ops[i] && front[..i] == ops[..i];
  }

  /** Heads rebuilt from the log alone. */
  ghost predicate RebuiltFrom(heads: map<Said, Said>, tels: map<Slot, Said>) {
    && (forall regk :: regk in heads <==> exists n: nat :: Slot(regk, n) in tels)
    && (forall regk, n: nat | TopIs(tels, regk, n) :: regk in heads && heads[regk] == tels[Slot(regk, n)])
  }

  /** In a strict run the head cache is what a rebuild from the log would give. */
  lemma HeadsRebuildable(ops: seq<Op>)
    requires Strict(ops)
    ensures RebuiltFrom(Run(ops).heads, Run(ops).tels)
    ensures forall other :: RebuiltFrom(other, Run(ops).tels) ==> other == Run(ops).heads
  {
    var t := Run(ops);
    forall regk ensures regk in t.heads <==> exists n: nat :: Slot(regk, n) in t.tels {
      StrictLog(ops, regk);
      if AcceptCount(ops, regk) > 0 {
        assert Slot(regk, 0) in t.tels;
      }
    }
    forall regk, n: nat | TopIs(t.tels, regk, n)
      ensures regk in t.heads && t.heads[regk] == t.tels[Slot(regk, n)]
    {
      StrictLog(ops, regk);
      assert Slot(regk, AcceptCount(ops, regk) - 1) in t.tels;
    }
    forall other | RebuiltFrom(other, t.tels) ensures other == t.heads {
      forall regk | regk in t.heads ensures other[regk] == t.heads[regk] {
        StrictLog(ops, regk);
        assert TopIs(t.tels, regk, AcceptCount(ops, regk) - 1);
      }
      assert other.Keys == t.heads.Keys;
    }
  }

  // ----- anchors -----------------------------------------------------------------------------

  predicate Anchors(op: Op, said: Said) {
    op.AnchorPut? && op.said == said
  }

  /** Among the first n operations, i is the first to offer the least sealing number for said. */
  predicate Earliest(ops: seq<Op>, n: nat, said: Said, i: nat) {
    && i < n <= |ops| && Anchors(ops[i], said)
    && forall j | 0 <= j < n && Anchors(ops[j], said) ::
         ops[i].anchor.sn <= ops[j].anchor.sn && (j < i ==> ops[i].anchor.sn < ops[j].anchor.sn)
  }

  lemma StepAnchors(t: Tables, op: Op, said: Said)
    ensures Anchors(op, said) && AnchorTaken(t, said, op.anchor) ==>
              said in Step(t, op).ancs && Step(t, op).ancs[said] == op.anchor
    ensures !(Anchors(op, said) && AnchorTaken(t, said, op.anchor)) ==>
              (said in Step(t, op).ancs <==> said in t.ancs)
              && (said in t.ancs ==> Step(t, op).ancs[said] == t.ancs[said])
  {
  }

  /** The stored anchor is the first one offered with the least number. */
  lemma {:induction false} EarliestAnchorWins(ops: seq<Op>, n: nat, said: Said) returns (i: nat)
    requires n <= |ops|
    ensures said !in After(ops, n).ancs ==> forall j | 0 <= j < n :: !Anchors(ops[j], said)
    ensures said in After(ops, n).ancs ==> Earliest(ops, n, said, i) && After(ops, n).ancs[said] == ops[i].anchor
    decreases n
  {
    i := 0;
    if n > 0 {
      i := EarliestAnchorWins(ops, n - 1, said);
      var t, op := After(ops, n - 1), ops[n - 1];
      AfterStep(ops, n - 1);
      StepAnchors(t, op, said);
      if Anchors(op, said) && AnchorTaken(t, said, op.anchor) {
        NewEarliest(ops, n, said, t, i);
        i := n - 1;
      } else {
        SameEarliest(ops, n, said, t, i);
      }
    }
  }

  lemma SameEarliest(ops: seq<Op>, n: nat, said: Said, t: Tables, i: nat)
    requires 0 < n <= |ops| && !(Anchors(ops[n - 1], said) && AnchorTaken(t, said, ops[n - 1].anchor))
    requires said in t.ancs ==> Earliest(ops, n - 1, said, i) && t.ancs[said] == ops[i].anchor
    ensures said in t.ancs ==> Earliest(ops, n, said, i)
    ensures said !in t.ancs ==> !Anchors(ops[n - 1], said)
  {
  }

  lemma NewEarliest(ops: seq<Op>, n: nat, said: Said, t: Tables, i: nat)
    requires 0 < n <= |ops| && Anchors(ops[n - 1], said) && AnchorTaken(t, said, ops[n - 1].anchor)
    requires said !in t.ancs ==> forall j | 0 <= j < n - 1 :: !Anchors(ops[j], said)
    requires said in t.ancs ==> Earliest(ops, n - 1, said, i) && t.ancs[said] == ops[i].anchor
    ensures Earliest(ops, n, said, n - 1)
  {
  }

  lemma EarliestUnique(ops: seq<Op>, n: nat, said: Said, i: nat, j: nat)
    requires Earliest(ops, n, said, i) && Earliest(ops, n, said, j)
    ensures i == j
  {
  }

  /** The first anchor offered with the least number is the one stored. */
  lemma AnchorIsEarliest(ops: seq<Op>, n: nat, said: Said, i: nat)
    requires Earliest(ops, n, said, i)
    ensures said in After(ops, n).ancs && After(ops, n).ancs[said] == ops[i].anchor
  {
    var j := EarliestAnchorWins(ops, n, said);
    EarliestUnique(ops, n, said, i, j);
  }

  /** The number of the stored anchor depends only on which anchors were offered, not on their order
      nor on how often. */
  lemma AnchorNumberOrderFree(ops: seq<Op>, ops': seq<Op>, said: Said)
    requires forall a :: AnchorPut(said, a) in ops <==> AnchorPut(said, a) in ops'
    ensures said in Run(ops).ancs <==> said in Run(ops').ancs
    ensures said in Run(ops).ancs ==> Run(ops).ancs[said].sn == Run(ops').ancs[said].sn
  {
    var i := EarliestAnchorWins(ops, |ops|, said);
    var j := EarliestAnchorWins(ops', |ops'|, said);
    assert ops[..|ops|] == ops && ops'[..|ops'|] == ops';
    if said in Run(ops).ancs {
      assert AnchorPut(said, ops[i].anchor) in ops;
    }
    if said in Run(ops').ancs {
      assert AnchorPut(said, ops'[j].anchor) in ops';
    }
  }

  /** The stored number never increases. */
  lemma {:induction false} AnchorNumberFalls(ops: seq<Op>, m: nat, n: nat, said: Said)
    requires m <= n <= |ops| && said in After(ops, m).ancs
    ensures said in After(ops, n).ancs && After(ops, n).ancs[said].sn <= After(ops, m).ancs[said].sn
    decreases n
  {
    if m < n {
      AnchorNumberFalls(ops, m, n - 1, said);
      AfterStep(ops, n - 1);
      StepAnchors(After(ops, n - 1), ops[n - 1], said);
    }
  }

  // ----- escrows -----------------------------------------------------------------------------

  function OnMissing(op: Op, slot: Slot): SetOp {
    match op
    case MissingAnchorAdded(s, x) => if s == slot then AddTo(x) else Skip
    case MissingAnchorRemoved(s, x) => if s == slot then RemFrom(x) else Skip
    case _ => Skip
  }

  function OnOutOfOrder(op: Op, slot: Slot): SetOp {
    match op
    case OutOfOrderAdded(s, x) => if s == slot then AddTo(x) else Skip
    case OutOfOrderRemoved(s, x) => if s == slot then RemFrom(x) else Skip
    case _ => Skip
  }

  function MissingOps(ops: seq<Op>, slot: Slot): seq<SetOp> {
    seq(|ops|, i requires 0 <= i < |ops| => OnMissing(ops[i], slot))
  }

  function OutOfOrderOps(ops: seq<Op>, slot: Slot): seq<SetOp> {
    seq(|ops|, i requires 0 <= i < |ops| => OnOutOfOrder(ops[i], slot))
  }

  lemma StepEscrows(t: Tables, op: Op, slot: Slot)
    ensures Entries(Step(t, op).maes, slot) == Apply(Entries(t.maes, slot), OnMissing(op, slot))
    ensures Entries(Step(t, op).ooes, slot) == Apply(Entries(t.ooes, slot), OnOutOfOrder(op, slot))
  {
  }

  /** Each escrow list is determined by the additions and removals at its own slot and table. */
  lemma {:induction false} EscrowsFold(ops: seq<Op>, slot: Slot)
    ensures Entries(Run(ops).maes, slot) == Fold(MissingOps(ops, slot))
    ensures Entries(Run(ops).ooes, slot) == Fold(OutOfOrderOps(ops, slot))
    decreases |ops|
  {
    if ops != [] {
      var n := |ops| - 1;
      var front, op := ops[..n], ops[n];
      EscrowsFold(front, slot);
      StepEscrows(Run(front), op, slot);
      assert MissingOps(ops, slot) == MissingOps(front, slot) + [OnMissing(op, slot)];
      assert OutOfOrderOps(ops, slot) == OutOfOrderOps(front, slot) + [OnOutOfOrder(op, slot)];
      FoldStep(MissingOps(front, slot), OnMissing(op, slot));
      FoldStep(OutOfOrderOps(front, slot), OnOutOfOrder(op, slot));
    }
  }

  /** In every run an escrow list holds, without repetition, exactly the SAIDs added there and not
      removed since, in the order of those additions. */
  lemma EscrowsExact(ops: seq<Op>, slot: Slot, x: Said)
    ensures x in Entries(Run(ops).maes, slot) <==> exists i: nat :: Standing(MissingOps(ops, slot), x, i)
    ensures x in Entries(Run(ops).ooes, slot) <==> exists i: nat :: Standing(OutOfOrderOps(ops, slot), x, i)
    ensures OrderedBy(MissingOps(ops, slot), Entries(Run(ops).maes, slot))
    ensures OrderedBy(OutOfOrderOps(ops, slot), Entries(Run(ops).ooes, slot))
    ensures Distinct(Entries(Run(ops).maes, slot)) && Distinct(Entries(Run(ops).ooes, slot))
  {
    EscrowsFold(ops, slot);
    FoldHolds(MissingOps(ops, slot));
    FoldHolds(OutOfOrderOps(ops, slot));
    StandingExists(MissingOps(ops, slot), x);
    StandingExists(OutOfOrderOps(ops, slot), x);
    OrderedDistinct(MissingOps(ops, slot), Entries(Run(ops).maes, slot));
    OrderedDistinct(OutOfOrderOps(ops, slot), Entries(Run(ops).ooes, slot));
  }
}
