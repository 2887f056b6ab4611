/** Running the tagger again: how many unmarked fences each run leaves, and when it stops changing
    the document. */
module Convergence {
  import opened Outcomes
  import opened Text
  import opened Fences
  import opened Values
  import opened Tagging
  import opened Reparsing
  import opened Markers
  import opened Selection

  function Count(n: string, cs: seq<Insert>): nat {
    if cs == [] then 0 else (if cs[0].name == n then 1 else 0) + Count(n, cs[1..])
  }

  /** The number of unmarked fences of a text that match the name n and no other. */
  function UnmarkedFences(parse: Parser, manifest: Items, text: string, n: string): nat {
    Count(n, AllCandidates(parse, manifest, Split(text)))
  }

  /** No marker of the manifest's dicts has a line that opens a fence. A name without a newline never does. */
  predicate HarmlessNames(manifest: Items) {
    forall i | 0 <= i < |manifest| && manifest[i].1.Dict? :: Harmless(manifest[i].0)
  }

  function Rounds(parse: Parser, manifest: Items, text: string, r: nat): string {
    if r == 0 then text else TagText(parse, manifest, Rounds(parse, manifest, text, r - 1))
  }

  // ----- candidates of the marked document ---------------------------------------------------

  lemma PatchedAt(ins: seq<Insert>, o: nat)
    ensures Marks(Patches(ins), o) <==> exists i :: 0 <= i < |ins| && ins[i].open == o
  {
    if i :| 0 <= i < |ins| && ins[i].open == o {
      assert Patches(ins)[i].open == o;
    }
  }

  /** A fence that was given a marker drops out, unless its marker is not recognised; every other
      fence is a candidate exactly when it was before. */
  lemma CandidateMoves(parse: Parser, targets: Items, lines: seq<string>, ins: seq<Insert>, out: seq<string>, b: Block)
    requires Merged(lines, Patches(ins), out) && b.open < |lines|
    requires forall i | 0 <= i < |ins| :: IsOpen(lines[ins[i].open])
    requires forall i | 0 <= i < |ins| && ins[i].open == b.open ::
               Candidate(parse, targets, lines, b) == Some(ins[i].name)
    ensures var before, after := Candidate(parse, targets, lines, b), Candidate(parse, targets, out, Moved(Patches(ins), b));
            after == if Marks(Patches(ins), b.open) && before.Some? && Recognised(before.value) then None else before
  {
    var ps := Patches(ins);
    if Marks(ps, b.open) {
      var i :| 0 <= i < |ps| && ps[i].open == b.open;
      MarkedIsTagged(lines, ins, out, i);
    } else {
      TaggedKept(lines, ps, out, b.open);
      OneLine(lines, ps, out, b.open);
    }
  }

  /** The inserts that fall on blocks of bs are those of firsts. */
  ghost predicate Agree(ins: seq<Insert>, firsts: seq<Insert>, bs: seq<Block>) {
    forall i, name | 0 <= i < |bs| :: Insert(bs[i].open, name) in ins <==> Insert(bs[i].open, name) in firsts
  }

  lemma AgreeTail(ins: seq<Insert>, head: seq<Insert>, firsts: seq<Insert>, bs: seq<Block>)
    requires bs != [] && InOrder(bs) && Agree(ins, head + firsts, bs)
    requires forall x | x in head :: x.open == bs[0].open
    ensures Agree(ins, firsts, bs[1..])
  {
    forall i, name | 0 <= i < |bs[1..]|
      ensures Insert(bs[1..][i].open, name) in ins <==> Insert(bs[1..][i].open, name) in firsts
    {
      assert bs[1..][i] == bs[i + 1];
      assert Insert(bs[i + 1].open, name) in ins <==> Insert(bs[i + 1].open, name) in head + firsts;
    }
  }

  lemma HeadInserts(ins: seq<Insert>, head: seq<Insert>, firsts: seq<Insert>, bs: seq<Block>)
    requires bs != [] && Agree(ins, head + firsts, bs) && AllAfter(firsts, bs[0].open)
    ensures forall name :: Insert(bs[0].open, name) in ins <==> Insert(bs[0].open, name) in head
  {
    forall name ensures Insert(bs[0].open, name) in ins <==> Insert(bs[0].open, name) in head {
      assert Insert(bs[0].open, name) in ins <==> Insert(bs[0].open, name) in head + firsts;
    }
  }

  function Dropped(n: string, used: set<string>, before: nat): nat {
    if n !in used && Recognised(n) && before > 0 then 1 else 0
  }

  /** The head block's own part of the count. */
  lemma HeadMoves(parse: Parser, targets: Items, lines: seq<string>, ins: seq<Insert>, out: seq<string>,
                  bs: seq<Block>, used: set<string>)
    requires Merged(lines, Patches(ins), out) && bs != [] && InOrder(bs) && bs[0].open < |lines|
    requires forall i | 0 <= i < |ins| :: IsOpen(lines[ins[i].open])
    requires Agree(ins, FirstPerName(Candidates(parse, targets, lines, bs), used), bs)
    ensures var before := Candidate(parse, targets, lines, bs[0]);
            Candidate(parse, targets, out, Moved(Patches(ins), bs[0]))
            == if before.Some? && before.value !in used && Recognised(before.value) then None else before
    ensures Agree(ins, FirstPerName(Candidates(parse, targets, lines, bs[1..]),
                                    NowUsed(parse, targets, lines, bs[0], used)), bs[1..])
  {
    var b := bs[0];
    var head := InsertOf(parse, targets, lines, b, used);
    var rest := Candidates(parse, targets, lines, bs[1..]);
    var firsts := FirstPerName(rest, NowUsed(parse, targets, lines, b, used));
    ChooseNext(parse, targets, lines, bs, used);
    CandidatesAscend(parse, targets, lines, bs[1..]);
    OpensAfter(bs, rest);
    FirstsAscend(bs[1..], rest, NowUsed(parse, targets, lines, b, used), b.open);
    HeadInserts(ins, head, firsts, bs);
    AgreeTail(ins, head, firsts, bs);
    forall i | 0 <= i < |ins| && ins[i].open == b.open
      ensures Candidate(parse, targets, lines, b) == Some(ins[i].name)
    {
      assert Insert(b.open, ins[i].name) in ins;
    }
    CandidateMoves(parse, targets, lines, ins, out, b);
    MarksIff(ins, b.open);
  }

  lemma MarksIff(ins: seq<Insert>, o: nat)
    ensures Marks(Patches(ins), o) <==> exists name :: Insert(o, name) in ins
  {
    PatchedAt(ins, o);
    if i :| 0 <= i < |ins| && ins[i].open == o {
      assert Insert(o, ins[i].name) in ins;
    }
  }

  lemma {:induction false} CountAfter(parse: Parser, targets: Items, lines: seq<string>, ins: seq<Insert>,
                                      out: seq<string>, bs: seq<Block>, used: set<string>, n: string)
    requires Merged(lines, Patches(ins), out) && InOrder(bs) && forall i | 0 <= i < |bs| :: bs[i].open < |lines|
    requires forall i | 0 <= i < |ins| :: IsOpen(lines[ins[i].open])
    requires Agree(ins, FirstPerName(Candidates(parse, targets, lines, bs), used), bs)
    ensures var before := Count(n, Candidates(parse, targets, lines, bs));
            Count(n, Candidates(parse, targets, out, MovedAll(Patches(ins), bs))) == before - Dropped(n, used, before)
    decreases |bs|
  {
    if bs != [] {
      HeadMoves(parse, targets, lines, ins, out, bs, used);
      CountAfter(parse, targets, lines, ins, out, bs[1..], NowUsed(parse, targets, lines, bs[0], used), n);
      CountHead(parse, targets, lines, bs, n);
      CountHead(parse, targets, out, MovedAll(Patches(ins), bs), n);
    }
  }

  lemma CountHead(parse: Parser, targets: Items, lines: seq<string>, bs: seq<Block>, n: string)
    requires bs != []
    ensures Count(n, Candidates(parse, targets, lines, bs))
         == (if Candidate(parse, targets, lines, bs[0]) == Some(n) then 1 else 0)
            + Count(n, Candidates(parse, targets, lines, bs[1..]))
  {
    var rest := Candidates(parse, targets, lines, bs[1..]);
    match Candidate(parse, targets, lines, bs[0])
    case None =>
    case Some(name) =>
      assert ([Insert(bs[0].open, name)] + rest)[1..] == rest;
  }

  // ----- one run -----------------------------------------------------------------------------

  lemma ChosenIsHarmless(parse: Parser, manifest: Items, lines: seq<string>, x: Insert)
    requires HarmlessNames(manifest) && x in Chosen(parse, manifest, lines)
    ensures Harmless(x.name)
  {
    ChosenRight(parse, manifest, lines, x);
    var targets := Targets(manifest);
    var i :| 0 <= i < |Blocks(lines)| && RightBlock(parse, targets, lines, Blocks(lines)[i], x);
    var j :| 0 <= j < |targets| && targets[j].0 == x.name;
    TargetsFrom(manifest);
    assert targets[j] in manifest;
  }

  lemma ChosenIsInert(parse: Parser, manifest: Items, lines: seq<string>)
    requires HarmlessNames(manifest)
    ensures Inert(Patches(Chosen(parse, manifest, lines)))
  {
    var ins := Chosen(parse, manifest, lines);
    forall i | 0 <= i < |ins| ensures NoneOpens(MarkerLines(ins[i].name)) {
      ChosenIsHarmless(parse, manifest, lines, ins[i]);
    }
  }

  /** What a run inserts into a text. */
  function Inserted(parse: Parser, manifest: Items, text: string): seq<Patch> {
    Patches(Chosen(parse, manifest, Split(text)))
  }

  lemma InsertedOpens(parse: Parser, manifest: Items, text: string)
    ensures var lines, ps := Split(text), Inserted(parse, manifest, text);
            Within(ps, 0, |lines|) && forall i | 0 <= i < |ps| :: Opens(Blocks(lines), ps[i].open)
  {
    var lines := Split(text);
    var ins := Chosen(parse, manifest, lines);
    ChosenAscend(parse, manifest, lines);
    forall i | 0 <= i < |ins| ensures Opens(Blocks(lines), ins[i].open) {
      assert AllOpen(Blocks(lines), ins);
    }
  }

  /** For every manifest: the lines of the tagged text are the old ones with every marker's lines above its fence. Unless
      one of these opens a fence, the blocks are the moved blocks. */
  lemma TagLines(parse: Parser, manifest: Items, text: string)
    ensures var lines, ps := Split(text), Inserted(parse, manifest, text);
            && Within(ps, 0, |lines|)
            && Split(TagText(parse, manifest, text)) == Interleave(lines, 0, ps)
            && (HarmlessNames(manifest) ==> Blocks(Interleave(lines, 0, ps)) == MovedAll(ps, Blocks(lines)))
  {
    var lines := Split(text);
    InsertedOpens(parse, manifest, text);
    SplitMerged(lines, Chosen(parse, manifest, lines));
    if HarmlessNames(manifest) {
      ChosenIsInert(parse, manifest, lines);
      BlocksMove(lines, Inserted(parse, manifest, text));
    }
  }

  /** Deleting the inserted lines gives back the original text, for every manifest. */
  lemma UntagText(parse: Parser, manifest: Items, text: string)
    ensures Join(Undo(Split(TagText(parse, manifest, text)), Inserted(parse, manifest, text))) == text
  {
    TagLines(parse, manifest, text);
    UndoInterleave(Split(text), Inserted(parse, manifest, text));
    JoinSplit(text);
  }

  /** A run marks one fence of every name that has unmarked ones; only a name whose marker is not recognised sees no
      progress. */
  lemma TagCounts(parse: Parser, manifest: Items, text: string, n: string)
    requires HarmlessNames(manifest)
    ensures var before := UnmarkedFences(parse, manifest, text, n);
            UnmarkedFences(parse, manifest, TagText(parse, manifest, text), n)
            == if Recognised(n) && before > 0 then before - 1 else before
  {
    TagLines(parse, manifest, text);
    var lines := Split(text);
    var ins := Chosen(parse, manifest, lines);
    ChosenAscend(parse, manifest, lines);
    ChosenIsInert(parse, manifest, lines);
    BlocksInOrder(lines);
    InterleaveIsMerged(lines, Patches(ins));
    BlocksLie(lines, 0, Outside);
    CountAfter(parse, Targets(manifest), lines, ins, Interleave(lines, 0, Patches(ins)), Blocks(lines), {}, n);
  }

  lemma NothingChosen(parse: Parser, manifest: Items, text: string)
    requires Chosen(parse, manifest, Split(text)) == []
    ensures TagText(parse, manifest, text) == text
  {
    var lines := Split(text);
    MergeSkips(lines, 0, |lines|, []);
    assert Merge(lines, 0, []) == lines;
    JoinSplit(text);
  }

  lemma SomethingChosen(parse: Parser, manifest: Items, text: string)
    requires Chosen(parse, manifest, Split(text)) != []
    ensures TagText(parse, manifest, text) != text
  {
    var lines, ps := Split(text), Inserted(parse, manifest, text);
    TagLines(parse, manifest, text);
    InterleaveLength(lines, 0, ps);
    assert Above(ps, |lines|) >= |ps[0].lines| >= 1;
  }

  /** A run changes nothing exactly when no fence is left to mark. */
  lemma TagFixpoint(parse: Parser, manifest: Items, text: string)
    ensures TagText(parse, manifest, text) == text <==> forall n :: UnmarkedFences(parse, manifest, text, n) == 0
  {
    var cs := AllCandidates(parse, manifest, Split(text));
    if cs == [] {
      NothingChosen(parse, manifest, text);
    } else {
      SomethingChosen(parse, manifest, text);
      assert UnmarkedFences(parse, manifest, text, cs[0].name) > 0;
    }
  }

  // ----- repeated runs -----------------------------------------------------------------------

  lemma RoundCounts(parse: Parser, manifest: Items, text: string, r: nat, n: string)
    requires HarmlessNames(manifest) && r > 0
    ensures var before := UnmarkedFences(parse, manifest, Rounds(parse, manifest, text, r - 1), n);
            UnmarkedFences(parse, manifest, Rounds(parse, manifest, text, r), n)
            == if Recognised(n) && before > 0 then before - 1 else before
  {
    var prev := Rounds(parse, manifest, text, r - 1);
    TagCounts(parse, manifest, prev, n);
    assert Rounds(parse, manifest, text, r) == TagText(parse, manifest, prev);
  }

  /** What falls by one a round until it is 0 has fallen by r after r rounds. */
  lemma {:induction false} Dwindles(left: nat -> nat, r: nat)
    requires forall k | 1 <= k <= r :: left(k) == if left(k - 1) == 0 then 0 else left(k - 1) - 1
    ensures left(r) == if left(0) <= r then 0 else left(0) - r
  {
    if r > 0 {
      Dwindles(left, r - 1);
    }
  }

  lemma {:induction false} Stays(left: nat -> nat, r: nat)
    requires forall k | 1 <= k <= r :: left(k) == left(k - 1)
    ensures left(r) == left(0)
  {
    if r > 0 {
      Stays(left, r - 1);
    }
  }

  lemma RoundsCount(parse: Parser, manifest: Items, text: string, r: nat, n: string)
    requires HarmlessNames(manifest)
    ensures var before := UnmarkedFences(parse, manifest, text, n);
            UnmarkedFences(parse, manifest, Rounds(parse, manifest, text, r), n)
            == if !Recognised(n) then before else if before <= r then 0 else before - r
  {
    if !Recognised(n) {
      RoundsStay(parse, manifest, text, r, n);
    } else {
      RoundsDwindle(parse, manifest, text, r, n);
    }
  }

  lemma RoundsStay(parse: Parser, manifest: Items, text: string, r: nat, n: string)
    requires HarmlessNames(manifest) && !Recognised(n)
    ensures UnmarkedFences(parse, manifest, Rounds(parse, manifest, text, r), n) == UnmarkedFences(parse, manifest, text, n)
  {
    var left: nat -> nat := k => UnmarkedFences(parse, manifest, Rounds(parse, manifest, text, k), n);
    forall k | 1 <= k <= r ensures left(k) == left(k - 1) {
      RoundCounts(parse, manifest, text, k, n);
    }
    Stays(left, r);
  }

  lemma RoundDrops(parse: Parser, manifest: Items, text: string, r: nat, n: string)
    requires HarmlessNames(manifest) && Recognised(n) && r > 0
    ensures var before := UnmarkedFences(parse, manifest, Rounds(parse, manifest, text, r - 1), n);
            UnmarkedFences(parse, manifest, Rounds(parse, manifest, text, r), n) == if before == 0 then 0 else before - 1
  {
    RoundCounts(parse, manifest, text, r, n);
  }

  lemma RoundsDwindle(parse: Parser, manifest: Items, text: string, r: nat, n: string)
    requires HarmlessNames(manifest) && Recognised(n)
    ensures var before := UnmarkedFences(parse, manifest, text, n);
            UnmarkedFences(parse, manifest, Rounds(parse, manifest, text, r), n) == if before <= r then 0 else before - r
  {
    var left: nat -> nat := k => UnmarkedFences(parse, manifest, Rounds(parse, manifest, text, k), n);
    forall k | 1 <= k <= r ensures left(k) == if left(k - 1) == 0 then 0 else left(k - 1) - 1 {
      RoundDrops(parse, manifest, text, k, n);
    }
    Dwindles(left, r);
  }

  /** After r runs the document no longer changes exactly when no name had more than r unmarked
      fences to begin with, and no name whose marker is not recognised had any. */
  lemma Converges(parse: Parser, manifest: Items, text: string, r: nat)
    requires HarmlessNames(manifest)
    ensures Rounds(parse, manifest, text, r + 1) == Rounds(parse, manifest, text, r) <==>
            forall n :: UnmarkedFences(parse, manifest, text, n) <= if Recognised(n) then r else 0
  {
    var now := Rounds(parse, manifest, text, r);
    TagFixpoint(parse, manifest, now);
    forall n ensures UnmarkedFences(parse, manifest, now, n) == 0 <==>
                     UnmarkedFences(parse, manifest, text, n) <= if Recognised(n) then r else 0 {
      RoundsCount(parse, manifest, text, r, n);
    }
  }

  /** The documented idempotence holds exactly when every name has at most one unmarked fence, and
      one whose marker is not recognised has none. */
  lemma Idempotent(parse: Parser, manifest: Items, text: string)
    requires HarmlessNames(manifest)
    ensures TagText(parse, manifest, TagText(parse, manifest, text)) == TagText(parse, manifest, text) <==>
            forall n :: UnmarkedFences(parse, manifest, text, n) <= if Recognised(n) then 1 else 0
  {
    Converges(parse, manifest, text, 1);
    assert Rounds(parse, manifest, text, 1) == TagText(parse, manifest, Rounds(parse, manifest, text, 0));
    assert Rounds(parse, manifest, text, 2) == TagText(parse, manifest, Rounds(parse, manifest, text, 1));
  }

  // ----- a document that needs two runs ------------------------------------------------------

  const EMPTY_DICT: Value := Dict(map[])
  const TWIN_LINES := ["```json", "{}", "```", "```json", "{}", "```"]
  const TWIN_MANIFEST: Items := [("a", EMPTY_DICT)]

  function ParseEmpty(lang: string, body: string): Option<Value> {
    if body == "{}" then Some(EMPTY_DICT) else None
  }

  lemma TwinLines()
    ensures OpenLang("```json") == Some("json") && IsClose("```") && !IsClose("{}") && !IsBlankLine("```")
    ensures !IsMarker("```") && !IsClose("```json")
  {
    assert SkipBlanks("```json") == "```json";
    assert "```json"[3..] == "json";
    assert SkipBlanks("json") == "json" && TrimBlanks("json") == "json";
    assert SkipBlanks("```") == "```" && "```"[3..] == "";
    assert SkipBlanks("{}") == "{}";
    assert "```"[0] == '`';
    assert SkipSpace("```") == "```";
    OpenIsNoClose("```json");
  }

  lemma TwinBlocks()
    ensures Blocks(TWIN_LINES) == [Block(0, 2, "json", "{}"), Block(3, 5, "json", "{}")]
  {
    TwinLines();
    var ls := TWIN_LINES;
    assert ls[1..2] == ["{}"] && ls[4..5] == ["{}"];
    assert Scan(ls, 6, Outside) == [];
    assert Scan(ls, 5, Inside(3)) == [Block(3, 5, "json", "{}")];
    assert Scan(ls, 4, Inside(3)) == Scan(ls, 5, Inside(3));
    assert Scan(ls, 3, Outside) == Scan(ls, 4, Inside(3));
    assert Scan(ls, 2, Inside(0)) == [Block(0, 2, "json", "{}")] + Scan(ls, 3, Outside);
    assert Scan(ls, 1, Inside(0)) == Scan(ls, 2, Inside(0));
  }

  lemma TwinTargets()
    ensures Targets(TWIN_MANIFEST) == TWIN_MANIFEST
    ensures NamesFor(TWIN_MANIFEST, EMPTY_DICT) == ["a"]
  {
    var items := TWIN_MANIFEST;
    assert items == [("a", EMPTY_DICT)];
    assert items[1..] == [];
    assert Targets(items[1..]) == [];
    SameRefl(EMPTY_DICT);
    assert NamesFor(items[1..], EMPTY_DICT) == [];
  }

  lemma TwinCandidates()
    ensures Count("a", AllCandidates(ParseEmpty, TWIN_MANIFEST, TWIN_LINES)) == 2
  {
    TwinBlocks();
    TwinLines();
    TwinTargets();
    var first, second := Block(0, 2, "json", "{}"), Block(3, 5, "json", "{}");
    assert [first, second][1..] == [second];
    assert [second][1..] == [];
    CountHead(ParseEmpty, TWIN_MANIFEST, TWIN_LINES, [first, second], "a");
    CountHead(ParseEmpty, TWIN_MANIFEST, TWIN_LINES, [second], "a");
  }

  lemma TwinName()
    ensures HarmlessNames(TWIN_MANIFEST) && Recognised("a")
  {
    OneLineMarker("a");
  }

  /** Two equal fences under one name: the second run still marks the second fence, since a fence
      found already tagged does not use up its name. */
  lemma TwinsAreTaggedOneByOne()
    ensures var t := Join(TWIN_LINES);
            && UnmarkedFences(ParseEmpty, TWIN_MANIFEST, t, "a") == 2
            && TagText(ParseEmpty, TWIN_MANIFEST, TagText(ParseEmpty, TWIN_MANIFEST, t))
               != TagText(ParseEmpty, TWIN_MANIFEST, t)
  {
    SplitJoin(TWIN_LINES);
    TwinCandidates();
    TwinName();
    Idempotent(ParseEmpty, TWIN_MANIFEST, Join(TWIN_LINES));
  }

  // ----- names that run over several lines ---------------------------------------------------

  const LONE_LINES := ["```json", "{}", "```"]
  const LONG_NAME := "a\nb"

  lemma NameTargets(name: string)
    ensures var items: Items := [(name, EMPTY_DICT)]; Targets(items) == items && NamesFor(items, EMPTY_DICT) == [name]
  {
    var items: Items := [(name, EMPTY_DICT)];
    assert items[1..] == [];
    assert Targets(items[1..]) == [];
    SameRefl(EMPTY_DICT);
    assert NamesFor(items[1..], EMPTY_DICT) == [];
  }

  lemma LoneBlocks()
    ensures Blocks(LONE_LINES) == [Block(0, 2, "json", "{}")]
  {
    TwinLines();
    var ls := LONE_LINES;
    assert ls[1..2] == ["{}"];
    assert Scan(ls, 3, Outside) == [];
    assert Scan(ls, 2, Inside(0)) == [Block(0, 2, "json", "{}")];
    assert Scan(ls, 1, Inside(0)) == Scan(ls, 2, Inside(0));
  }

  lemma LoneCandidate(name: string)
    ensures var b := Block(0, 2, "json", "{}");
            Candidates(ParseEmpty, [(name, EMPTY_DICT)], LONE_LINES, [b]) == [Insert(0, name)]
  {
    var b := Block(0, 2, "json", "{}");
    NameTargets(name);
    assert Candidate(ParseEmpty, [(name, EMPTY_DICT)], LONE_LINES, b) == Some(name);
    assert [b][1..] == [];
  }

  lemma LoneCounts(name: string)
    ensures Count(name, [Insert(0, name)]) == 1
  {
    assert [Insert(0, name)][1..] == [];
  }

  /** A document with a single fence, which is empty, has one unmarked fence of that name. */
  lemma LoneUnmarked(name: string)
    ensures UnmarkedFences(ParseEmpty, [(name, EMPTY_DICT)], Join(LONE_LINES), name) == 1
  {
    SplitJoin(LONE_LINES);
    LoneBlocks();
    NameTargets(name);
    LoneCandidate(name);
    LoneCounts(name);
  }

  lemma LongMarkerLines()
    ensures MarkerLines(LONG_NAME) == ["<!-- example: a", "b -->"]
  {
    var first, last := "<!-- example: a", "b -->";
    assert MarkerLine(LONG_NAME) == first + ("\n" + last);
    SplitFirst(first, last);
    SplitLine(last);
  }

  lemma LongLines()
    ensures !IsOpen("<!-- example: a") && !IsOpen("b -->") && !IsMarker("b -->")
  {
    assert SkipBlanks("<!-- example: a") == "<!-- example: a" && "<!-- example: a"[0] == '<';
    assert SkipBlanks("b -->") == "b -->" && SkipSpace("b -->") == "b -->" && "b -->"[0] == 'b';
  }

  lemma LongMarker()
    ensures Harmless(LONG_NAME) && !Recognised(LONG_NAME)
  {
    LongMarkerLines();
    LongLines();
  }

  /** A name with a newline is spread over two lines that no run takes for a marker: its one fence is marked again and
      again, although it has no '>'. */
  lemma NewlineNameNeverSettles()
    ensures var manifest: Items := [(LONG_NAME, EMPTY_DICT)];
            var t := Join(LONE_LINES);
            && '>' !in LONG_NAME && UnmarkedFences(ParseEmpty, manifest, t, LONG_NAME) == 1
            && forall r: nat :: Rounds(ParseEmpty, manifest, t, r + 1) != Rounds(ParseEmpty, manifest, t, r)
  {
    var manifest: Items := [(LONG_NAME, EMPTY_DICT)];
    LongMarker();
    LoneUnmarked(LONG_NAME);
    forall r: nat ensures Rounds(ParseEmpty, manifest, Join(LONE_LINES), r + 1) != Rounds(ParseEmpty, manifest, Join(LONE_LINES), r) {
      Converges(ParseEmpty, manifest, Join(LONE_LINES), r);
    }
  }

  // ----- a name that opens a fence -----------------------------------------------------------

  const FENCE_NAME := "a\n```json\nb"
  const FENCE_MANIFEST: Items := [(FENCE_NAME, EMPTY_DICT)]
  const SWALLOWED := ["<!-- example: a", "```json", "b -->", "```json", "{}", "```"]

  lemma FenceMarkerLines()
    ensures MarkerLines(FENCE_NAME) == ["<!-- example: a", "```json", "b -->"]
  {
    var first, second, last := "<!-- example: a", "```json", "b -->";
    assert MarkerLine(FENCE_NAME) == first + ("\n" + (second + ("\n" + last)));
    SplitFirst(first, second + ("\n" + last));
    SplitFirst(second, last);
    SplitLine(last);
  }

  lemma LoneInserted(name: string)
    ensures Inserted(ParseEmpty, [(name, EMPTY_DICT)], Join(LONE_LINES)) == [Patch(0, MarkerLines(name))]
  {
    SplitJoin(LONE_LINES);
    LoneBlocks();
    NameTargets(name);
    LoneCandidate(name);
    LoneChosen([Insert(0, name)]);
  }

  lemma LonePatched(ls: seq<string>)
    ensures Interleave(LONE_LINES, 0, [Patch(0, ls)]) == ls + LONE_LINES
  {
    InterleaveHead(LONE_LINES, Patch(0, ls), []);
    InterleaveSkips(LONE_LINES, 1, 3, []);
    assert [Patch(0, ls)] + [] == [Patch(0, ls)];
  }

  lemma LoneTagged(name: string)
    ensures Split(TagText(ParseEmpty, [(name, EMPTY_DICT)], Join(LONE_LINES))) == MarkerLines(name) + LONE_LINES
  {
    LoneInserted(name);
    SplitJoin(LONE_LINES);
    TagLines(ParseEmpty, [(name, EMPTY_DICT)], Join(LONE_LINES));
    LonePatched(MarkerLines(name));
  }

  lemma SwallowedLines()
    ensures Split(TagText(ParseEmpty, FENCE_MANIFEST, Join(LONE_LINES))) == SWALLOWED
  {
    FenceMarkerLines();
    LoneTagged(FENCE_NAME);
  }

  lemma LoneChosen(ins: seq<Insert>)
    requires |ins| == 1
    ensures FirstPerName(ins, {}) == ins
  {
    assert ins[1..] == [] && FirstPerName([], {} + {ins[0].name}) == [];
    assert FirstPerName(ins, {}) == [ins[0]] + FirstPerName(ins[1..], {} + {ins[0].name});
  }

  lemma SwallowedBlocks()
    ensures exists body :: body != "{}" && Blocks(SWALLOWED) == [Block(1, 5, "json", body)]
  {
    TwinLines();
    LongLines();
    var ls := SWALLOWED;
    var body := Join(ls[2..5]);
    assert ls[2..5] == ["b -->"] + ["```json", "{}"];
    assert body[0] == 'b';
    assert !IsClose("b -->") by {
      assert SkipBlanks("b -->") == "b -->" && "b -->"[0] == 'b';
    }
    assert Scan(ls, 6, Outside) == [];
    assert Scan(ls, 5, Inside(1)) == [Block(1, 5, "json", body)];
    assert Scan(ls, 4, Inside(1)) == Scan(ls, 5, Inside(1));
    assert Scan(ls, 3, Inside(1)) == Scan(ls, 4, Inside(1));
    assert Scan(ls, 2, Inside(1)) == Scan(ls, 3, Inside(1));
    assert Scan(ls, 1, Outside) == Scan(ls, 2, Inside(1));
    assert Scan(ls, 0, Outside) == Scan(ls, 1, Outside);
  }

  lemma SwallowedUnmarked(t: string)
    requires Split(t) == SWALLOWED
    ensures UnmarkedFences(ParseEmpty, FENCE_MANIFEST, t, FENCE_NAME) == 0
  {
    SwallowedBlocks();
    var body :| body != "{}" && Blocks(SWALLOWED) == [Block(1, 5, "json", body)];
    var b := Block(1, 5, "json", body);
    assert [b][1..] == [];
    assert Candidate(ParseEmpty, Targets(FENCE_MANIFEST), SWALLOWED, b).None?;
    assert Candidates(ParseEmpty, Targets(FENCE_MANIFEST), SWALLOWED, [b]) == [];
  }

  lemma FenceNotRecognised()
    ensures !Recognised(FENCE_NAME)
  {
    FenceMarkerLines();
    LongLines();
  }

  /** A name with a line that opens a fence swallows the very fence it marks: the marked text has no block for it. */
  lemma FenceNameSwallows()
    ensures var t := Join(LONE_LINES);
            && UnmarkedFences(ParseEmpty, FENCE_MANIFEST, t, FENCE_NAME) == 1 && !Recognised(FENCE_NAME)
            && UnmarkedFences(ParseEmpty, FENCE_MANIFEST, TagText(ParseEmpty, FENCE_MANIFEST, t), FENCE_NAME) == 0
  {
    LoneUnmarked(FENCE_NAME);
    FenceNotRecognised();
    SwallowedLines();
    SwallowedUnmarked(TagText(ParseEmpty, FENCE_MANIFEST, Join(LONE_LINES)));
  }
}
