/** Whether the two escrows settle their races as one: exactly when nothing that waits for its seal would come before what
    the queue commits. */
module Races {
  import opened Outcomes
  import opened RegistryTables
  import opened RegistryRules
  import opened RegistryProtocol
  import opened RegistryInvariants
  import opened RegistryDelivery
  import opened Arbitration
  import opened Sweeps

  // ----- one contest for both escrows --------------------------------------------------------

  function AllEntries(t: Tables, slot: Slot): seq<Said> {
    Entries(t.ooes, slot) + Entries(t.maes, slot)
  }

  /** The winner if queued and escrowed events competed as one set, by the seals that the pass can see. */
  function FairWinner(p: Sweep, n: nat, below: Option<Said>): Option<Said> {
    First(Seen(p.t, p.kel), Contenders(p.t, p.issuer, AllEntries(p.t, Slot(p.regk, n)), below))
  }

  function FairFills(p: Sweep, n: nat, below: Option<Said>): Option<Said> {
    if Slot(p.regk, n) in p.t.tels then Some(p.t.tels[Slot(p.regk, n)])
    else if n > 0 && below.None? then None
    else FairWinner(p, n, below)
  }

  /** The log after the pass, if it settled every race that way. */
  function FairTakes(p: Sweep, n: nat): Option<Said> {
    FairFills(p, n, if n == 0 then None else FairTakes(p, n - 1))
  }

  /** The queue's winner, if there is one, comes before every escrowed event that continues the log and has a seal. */
  ghost predicate Precedes(p: Sweep, n: nat, below: Option<Said>) {
    var winner := QueueWinner(p, n, below);
    winner.Some? ==>
      forall x | x in Contenders(p.t, p.issuer, Entries(p.t.maes, Slot(p.regk, n)), below) && x in Seen(p.t, p.kel) ::
        && winner.value in Seen(p.t, p.kel)
        && (x == winner.value || Sooner(Seen(p.t, p.kel)[winner.value], winner.value, Seen(p.t, p.kel)[x], x))
  }

  lemma QueuedAreSeen(w: World, p: Sweep, n: nat, below: Option<Said>)
    requires Core(w, p.t)
    ensures forall x | x in Contenders(p.t, p.issuer, Entries(p.t.ooes, Slot(p.regk, n)), below) ::
              x in p.t.ancs && x in Seen(p.t, p.kel) && Seen(p.t, p.kel)[x] == p.t.ancs[x]
  {
    forall x | x in Entries(p.t.ooes, Slot(p.regk, n)) ensures x in p.t.evts && x in p.t.ancs {
      assert Escrowed(w, p.t, Slot(p.regk, n), x);
    }
  }

  lemma AllContenders(p: Sweep, n: nat, below: Option<Said>)
    ensures Contenders(p.t, p.issuer, AllEntries(p.t, Slot(p.regk, n)), below)
         == Contenders(p.t, p.issuer, Entries(p.t.ooes, Slot(p.regk, n)), below)
            + Contenders(p.t, p.issuer, Entries(p.t.maes, Slot(p.regk, n)), below)
  {
  }

  /** Beating every rival of two sets. */
  lemma FirstOfBoth(ancs: map<Said, Seal>, seen: map<Said, Seal>, queued: set<Said>, waiting: set<Said>, s: Said)
    requires forall x | x in queued :: x in ancs && x in seen && seen[x] == ancs[x]
    requires First(ancs, queued) == Some(s)
    ensures First(seen, queued + waiting) == Some(s) <==>
            forall x | x in waiting && x in seen :: s in seen && (x == s || Sooner(seen[s], s, seen[x], x))
  {
    FirstExact(ancs, queued, s);
    FirstExact(seen, queued + waiting, s);
    forall x | x in queued && x != s ensures Sooner(seen[s], s, seen[x], x) {
      assert Sooner(ancs[s], s, ancs[x], x);
    }
  }

  lemma NoQueuedFirst(ancs: map<Said, Seal>, seen: map<Said, Seal>, queued: set<Said>, waiting: set<Said>)
    requires (forall x | x in queued :: x in ancs) && First(ancs, queued).None?
    ensures First(seen, queued + waiting) == First(seen, waiting)
  {
    NoFirst(ancs, queued);
    assert queued + waiting == waiting;
  }

  /** At one slot the two ways agree exactly when the queue's winner comes before all that wait for a seal. */
  lemma WinnerIsFair(w: World, p: Sweep, n: nat, below: Option<Said>)
    requires Core(w, p.t)
    ensures Winner(p, n, below) == FairWinner(p, n, below) <==> Precedes(p, n, below)
  {
    var queued := Contenders(p.t, p.issuer, Entries(p.t.ooes, Slot(p.regk, n)), below);
    var waiting := Contenders(p.t, p.issuer, Entries(p.t.maes, Slot(p.regk, n)), below);
    QueuedAreSeen(w, p, n, below);
    AllContenders(p, n, below);
    if QueueWinner(p, n, below).Some? {
      FirstOfBoth(p.t.ancs, Seen(p.t, p.kel), queued, waiting, QueueWinner(p, n, below).value);
    } else {
      NoQueuedFirst(p.t.ancs, Seen(p.t, p.kel), queued, waiting);
    }
  }

  /** The condition at slot n, if there is a race for it at all. */
  ghost predicate QueuePrecedes(p: Sweep, n: nat) {
    var below := if n == 0 then None else Takes(p, n - 1);
    Slot(p.regk, n) !in p.t.tels && (n > 0 ==> below.Some?) ==> Precedes(p, n, below)
  }

  lemma FillsIsFair(w: World, p: Sweep, n: nat, below: Option<Said>)
    requires Core(w, p.t)
    ensures Fills(p, n, below) == FairFills(p, n, below) <==>
            (Slot(p.regk, n) !in p.t.tels && (n > 0 ==> below.Some?) ==> Precedes(p, n, below))
  {
    WinnerIsFair(w, p, n, below);
  }

  /** The condition at every slot. */
  ghost predicate QueuesPrecede(p: Sweep) {
    forall n: nat :: QueuePrecedes(p, n)
  }

  lemma PrecedesAt(p: Sweep, n: nat)
    requires QueuesPrecede(p)
    ensures QueuePrecedes(p, n)
  {
  }

  predicate FairAt(p: Sweep, n: nat) {
    Takes(p, n) == FairTakes(p, n)
  }

  predicate Inherits(good: nat -> bool, n: nat) {
    (n > 0 ==> good(n - 1)) ==> good(n)
  }

  lemma {:induction false} FromBelow(good: nat -> bool, n: nat)
    requires forall m: nat :: Inherits(good, m)
    ensures good(n)
  {
    if n > 0 {
      FromBelow(good, n - 1);
    }
    assert Inherits(good, n);
  }

  lemma FairNext(w: World, p: Sweep, n: nat)
    requires Core(w, p.t) && QueuesPrecede(p)
    ensures (n > 0 ==> FairAt(p, n - 1)) ==> FairAt(p, n)
  {
    PrecedesAt(p, n);
    FillsIsFair(w, p, n, if n == 0 then None else Takes(p, n - 1));
  }

  lemma FairIsPreceded(w: World, p: Sweep, n: nat)
    requires Core(w, p.t) && FairAt(p, n) && (n > 0 ==> FairAt(p, n - 1))
    ensures QueuePrecedes(p, n)
  {
    FillsIsFair(w, p, n, if n == 0 then None else Takes(p, n - 1));
  }

  lemma FairFromBelow(w: World, p: Sweep, n: nat)
    requires Core(w, p.t) && QueuesPrecede(p)
    ensures FairAt(p, n)
  {
    var fair := (m: nat) => FairAt(p, m);
    forall m: nat ensures Inherits(fair, m) {
      FairNext(w, p, m);
    }
    FromBelow(fair, n);
  }

  lemma TakesIsFair(w: World, p: Sweep)
    requires Core(w, p.t)
    ensures (forall n: nat :: FairAt(p, n)) <==> QueuesPrecede(p)
  {
    if QueuesPrecede(p) {
      forall n: nat ensures FairAt(p, n) {
        FairFromBelow(w, p, n);
      }
    }
    if forall n: nat :: FairAt(p, n) {
      forall n: nat ensures QueuePrecedes(p, n) {
        FairIsPreceded(w, p, n);
      }
    }
  }

  /** The pass left slot n to the event that one contest would have. */
  predicate SettledFairly(p: Sweep, n: nat) {
    EntryAt(ProcessEscrows(p.t, Some(p.regk), p.issuer, p.kel), p.regk, n) == FairTakes(p, n)
  }

  lemma SettledFairlyExact(w: World, p: Sweep, n: nat)
    requires Steady(w, p.t, {}, None) && Sound(w, p.kel)
    ensures SettledFairly(p, n) <==> FairAt(p, n)
  {
    SweepExact(w, p, n);
  }

  /** A pass settles all races as one contest would exactly when at every slot the queue's winner, if there is one, comes
      before all that wait for a seal there. */
  lemma SweepIsFair(w: World, p: Sweep)
    requires Steady(w, p.t, {}, None) && Sound(w, p.kel)
    ensures (forall n: nat :: SettledFairly(p, n)) <==> QueuesPrecede(p)
  {
    TakesIsFair(w, p);
    forall n: nat ensures SettledFairly(p, n) <==> FairAt(p, n) {
      SettledFairlyExact(w, p, n);
    }
  }

  // ----- a run that ends in an unfair pass ---------------------------------------------------

  const RIP := Serder("R", Rip, "", 0, "", "I")
  const LATE := Serder("a", Bup, "R", 1, "R", "I")
  const EARLY := Serder("b", Bup, "R", 1, "R", "I")
  const WORLD := World((s: Said) => if s == "R" then RIP else if s == "a" then LATE else EARLY, (e: Serder, a: Seal) => true)

  /** The key event log at first shows no seal, then that of the late update, and at last all three. */
  const BLANK := Kel((e: Serder) => None, (e: Serder, a: Seal) => true)
  const LATE_SEEN := Kel((e: Serder) => Some(Seal(5, "")), (e: Serder, a: Seal) => true)
  const ALL_SEEN := Kel((e: Serder) => Some(if e == RIP then Seal(1, "") else Seal(3, "")), (e: Serder, a: Seal) => true)

  const STAFF: Staff := n => "I"
  const ARRIVALS := [Deliver(0, BLANK, RIP), Deliver(0, LATE_SEEN, LATE), Deliver(0, BLANK, EARLY)]

  /** The inception and the early update wait for their seals, the late update is queued. */
  const RACE := Tables(map["R" := RIP, "a" := LATE, "b" := EARLY], map["a" := Seal(5, "")], map[], map[],
                       map[Slot("R", 0) := ["R"], Slot("R", 1) := ["b"]], map[Slot("R", 1) := ["a"]])

  const WAITING := Tables(map["R" := RIP], map[], map[], map[], map[Slot("R", 0) := ["R"]], map[])
  const QUEUED := Tables(map["R" := RIP, "a" := LATE], map["a" := Seal(5, "")], map[], map[],
                         map[Slot("R", 0) := ["R"], Slot("R", 1) := []], map[Slot("R", 1) := ["a"]])

  lemma RipWaits()
    ensures Process(EMPTY, None, "I", BLANK, RIP) == Ok(Outcome(WAITING, false))
  {
    assert Validate(EMPTY, None, "I", RIP) == Ok(Checked(None, None));
    assert Stored(EMPTY, BLANK, RIP) == EMPTY.(evts := WAITING.evts);
    assert [] + ["R"] == ["R"];
    assert AddAt(EMPTY.maes, Slot("R", 0), "R") == WAITING.maes;
  }

  lemma LateIsQueued()
    ensures Process(WAITING, Some("R"), "I", LATE_SEEN, LATE) == Ok(Outcome(QUEUED, false))
  {
    assert Validate(WAITING, Some("R"), "I", LATE) == Ok(Checked(None, None));
    assert Stored(WAITING, LATE_SEEN, LATE) == WAITING.(evts := QUEUED.evts, ancs := QUEUED.ancs);
    assert RemAt(WAITING.maes, Slot("R", 1), "a") == QUEUED.maes;
    assert [] + ["a"] == ["a"];
    assert AddAt(WAITING.ooes, Slot("R", 1), "a") == QUEUED.ooes;
  }

  lemma EarlyWaits()
    ensures Process(QUEUED, Some("R"), "I", BLANK, EARLY) == Ok(Outcome(RACE, false))
  {
    assert Validate(QUEUED, Some("R"), "I", EARLY) == Ok(Checked(None, None));
    assert Stored(QUEUED, BLANK, EARLY) == QUEUED.(evts := RACE.evts);
    assert [] + ["b"] == ["b"];
    assert AddAt(QUEUED.maes, Slot("R", 1), "b") == RACE.maes;
  }

  lemma CallsMore(sys: System, staff: Staff, calls: seq<Call>, call: Call)
    ensures Calls(sys, staff, calls + [call]) == React(Calls(sys, staff, calls), staff, call)
  {
    assert (calls + [call])[..|calls|] == calls;
  }

  lemma ArrivalsReact()
    ensures React(System(map[], EMPTY), STAFF, ARRIVALS[0]) == System(map[0 := "R"], WAITING)
    ensures React(System(map[0 := "R"], WAITING), STAFF, ARRIVALS[1]) == System(map[0 := "R"], QUEUED)
    ensures React(System(map[0 := "R"], QUEUED), STAFF, ARRIVALS[2]) == System(map[0 := "R"], RACE)
  {
    RipWaits();
    LateIsQueued();
    EarlyWaits();
  }

  lemma RaceIsReached()
    ensures Calls(System(map[], EMPTY), STAFF, ARRIVALS) == System(map[0 := "R"], RACE)
  {
    var sys := System(map[], EMPTY);
    ArrivalsReact();
    CallsMore(sys, STAFF, [], ARRIVALS[0]);
    CallsMore(sys, STAFF, [] + [ARRIVALS[0]], ARRIVALS[1]);
    CallsMore(sys, STAFF, [] + [ARRIVALS[0]] + [ARRIVALS[1]], ARRIVALS[2]);
    assert ARRIVALS == [] + [ARRIVALS[0]] + [ARRIVALS[1]] + [ARRIVALS[2]];
  }

  const PASS := Sweep(RACE, "R", "I", ALL_SEEN)
  const SEEN: map<Said, Seal> := map["R" := Seal(1, ""), "a" := Seal(5, ""), "b" := Seal(3, "")]

  lemma RaceSeen()
    ensures Seen(RACE, ALL_SEEN) == SEEN
  {
  }

  lemma RaceContenders()
    ensures Contenders(RACE, "I", ["R"], None) == {"R"} && Contenders(RACE, "I", ["a"], Some("R")) == {"a"}
    ensures Contenders(RACE, "I", ["a"] + ["b"], Some("R")) == {"a", "b"}
  {
  }

  lemma RaceWinners()
    ensures Winner(PASS, 0, None) == Some("R") && Winner(PASS, 1, Some("R")) == Some("a")
    ensures FairWinner(PASS, 0, None) == Some("R") && FairWinner(PASS, 1, Some("R")) == Some("b")
  {
    RaceSeen();
    RaceContenders();
    assert [] + ["R"] == ["R"];
    EmptyHasNoFirst(RACE.ancs, RACE, "I", None);
    FirstExact(SEEN, {"R"}, "R");
    FirstExact(RACE.ancs, {"a"}, "a");
    FirstExact(SEEN, {"a", "b"}, "b");
  }

  lemma RaceTakes()
    ensures Takes(PASS, 1) == Some("a") && FairTakes(PASS, 1) == Some("b")
  {
    RaceWinners();
    assert Takes(PASS, 0) == Some("R") && FairTakes(PASS, 0) == Some("R");
  }

  lemma RaceIsHonest()
    ensures (forall call | call in ARRIVALS :: Honest(WORLD, call)) && Sound(WORLD, ALL_SEEN)
    ensures Steady(WORLD, RACE, {}, None)
  {
    EmptySteady(WORLD);
    CallsKeep(WORLD, System(map[], EMPTY), STAFF, ARRIVALS, 0);
    RaceIsReached();
  }

  /** Three arrivals and a pass over the escrows: the pass finds the seals of the inception and of the early update, but the
      late update is queued and gets committed right behind the inception, before its rival's turn. */
  lemma QueuedRivalWins()
    ensures var sys := Calls(System(map[], EMPTY), STAFF, ARRIVALS);
            var p := Sweep(sys.t, "R", "I", ALL_SEEN);
            && sys.bound == map[0 := "R"] && !QueuePrecedes(p, 1) && FairTakes(p, 1) == Some(EARLY.said)
            && EntryAt(React(sys, STAFF, Escrows(0, ALL_SEEN)).t, "R", 1) == Some(LATE.said)
  {
    RaceIsReached();
    RaceTakes();
    RaceIsPassed();
    RaceIsUnfair();
  }

  lemma RaceIsPassed()
    ensures EntryAt(React(System(map[0 := "R"], RACE), STAFF, Escrows(0, ALL_SEEN)).t, "R", 1) == Some("a")
  {
    RaceIsHonest();
    RaceTakes();
    SweepExact(WORLD, PASS, 1);
  }

  lemma RaceIsUnfair()
    ensures !QueuePrecedes(PASS, 1)
  {
    RaceWinners();
    RaceIsHonest();
    WinnerIsFair(WORLD, PASS, 1, Some("R"));
    assert !Precedes(PASS, 1, Some("R"));
    assert Takes(PASS, 0) == Some("R");
  }
}
