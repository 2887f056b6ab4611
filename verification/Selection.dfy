/** Which fences a run marks and which it warns of, said of the document and the manifest. */
module Selection {
  import opened Outcomes
  import opened KeyOrder
  import opened Fences
  import opened Values
  import opened Tagging

  // ----- the manifest ------------------------------------------------------------------------

  /** The members of rest one later, after 0 if that is wanted. */
  function Shifted(here: bool, rest: seq<nat>): seq<nat> {
    (if here then [0] else []) + seq(|rest|, i requires 0 <= i < |rest| => rest[i] + 1)
  }

  lemma ShiftedAt(here: bool, rest: seq<nat>, k: nat)
    requires k < |Shifted(here, rest)|
    ensures Shifted(here, rest)[k] == if here && k == 0 then 0 else rest[if here then k - 1 else k] + 1
  {
  }

  lemma ShiftedPlaces(here: bool, rest: seq<nat>, n: nat)
    requires Places(rest, n)
    ensures Places(Shifted(here, rest), n + 1)
  {
  }

  lemma ShiftedMembers(here: bool, rest: seq<nat>, i: nat)
    ensures i in Shifted(here, rest) <==> if i == 0 then here else i - 1 in rest
  {
    if i > 0 && i - 1 in rest {
      var k :| 0 <= k < |rest| && rest[k] == i - 1;
      ShiftedAt(here, rest, if here then k + 1 else k);
    }
  }

  /** ys are the members of xs at the places js. */
  predicate PicksFrom<T(==)>(xs: seq<T>, js: seq<nat>, ys: seq<T>) {
    Places(js, |xs|) && |ys| == |js| && forall k | 0 <= k < |js| :: ys[k] == xs[js[k]]
  }

  lemma PicksMore<T>(xs: seq<T>, js: seq<nat>, ys: seq<T>, here: bool)
    requires xs != [] && PicksFrom(xs[1..], js, ys)
    ensures PicksFrom(xs, Shifted(here, js), (if here then [xs[0]] else []) + ys)
  {
    ShiftedPlaces(here, js, |xs[1..]|);
    forall k | 0 <= k < |Shifted(here, js)|
      ensures ((if here then [xs[0]] else []) + ys)[k] == xs[Shifted(here, js)[k]]
    {
      ShiftedAt(here, js, k);
    }
  }

  /** The targets are the dict-valued entries of the manifest, in its order. */
  lemma {:induction false} TargetsExact(manifest: Items) returns (js: seq<nat>)
    ensures PicksFrom(manifest, js, Targets(manifest))
    ensures forall i: nat | i < |manifest| :: i in js <==> manifest[i].1.Dict?
  {
    js := [];
    if manifest != [] {
      var rest := TargetsExact(manifest[1..]);
      js := Shifted(manifest[0].1.Dict?, rest);
      PicksMore(manifest, rest, Targets(manifest[1..]), manifest[0].1.Dict?);
      forall i: nat | i < |manifest| ensures i in js <==> manifest[i].1.Dict? {
        ShiftedMembers(manifest[0].1.Dict?, rest, i);
        assert i > 0 ==> manifest[1..][i - 1] == manifest[i];
      }
    }
  }

  function NamesOf(items: Items): (ns: seq<string>)
    ensures |ns| == |items| && forall i | 0 <= i < |ns| :: ns[i] == items[i].0
  {
    seq(|items|, i requires 0 <= i < |items| => items[i].0)
  }

  /** The names matched are those of the targets that equal the value, in the targets' order. */
  lemma {:induction false} NamesForPlaces(targets: Items, v: Value) returns (js: seq<nat>)
    ensures PicksFrom(NamesOf(targets), js, NamesFor(targets, v))
    ensures forall i: nat | i < |targets| :: i in js <==> Equal(targets[i].1, v)
  {
    js := [];
    if targets != [] {
      var here := Equal(targets[0].1, v);
      var rest := NamesForPlaces(targets[1..], v);
      js := Shifted(here, rest);
      assert NamesOf(targets)[1..] == NamesOf(targets[1..]);
      PicksMore(NamesOf(targets), rest, NamesFor(targets[1..], v), here);
      forall i: nat | i < |targets| ensures i in js <==> Equal(targets[i].1, v) {
        ShiftedMembers(here, rest, i);
        assert i > 0 ==> targets[1..][i - 1] == targets[i];
      }
    }
  }

  lemma {:induction false} TargetsFrom(manifest: Items)
    ensures forall x | x in Targets(manifest) :: x in manifest && x.1.Dict?
  {
    if manifest != [] {
      TargetsFrom(manifest[1..]);
    }
  }

  /** A name is offered for a value exactly when some target of that name equals it. */
  lemma {:induction false} NamesForExact(targets: Items, v: Value, name: string)
    ensures name in NamesFor(targets, v) <==> exists i | 0 <= i < |targets| :: targets[i].0 == name && Equal(targets[i].1, v)
  {
    if targets != [] {
      NamesForExact(targets[1..], v, name);
      if exists i | 0 <= i < |targets| :: targets[i].0 == name && Equal(targets[i].1, v) {
        var i :| 0 <= i < |targets| && targets[i].0 == name && Equal(targets[i].1, v);
        if i > 0 {
          assert targets[1..][i - 1] == targets[i];
        }
      }
    }
  }

  lemma {:induction false} NoNames(targets: Items, v: Value)
    requires NamesFor(targets, v) == []
    ensures forall k | 0 <= k < |targets| :: !Equal(targets[k].1, v)
  {
    if targets != [] {
      NoNames(targets[1..], v);
      assert forall k | 0 < k < |targets| :: targets[k] == targets[1..][k - 1];
    }
  }

  /** A single name means a single target: the others, even of that name, do not equal the value. */
  lemma {:induction false} SoleName(targets: Items, v: Value) returns (j: nat)
    requires |NamesFor(targets, v)| == 1
    ensures j < |targets| && targets[j].0 == NamesFor(targets, v)[0] && Equal(targets[j].1, v)
    ensures forall k | 0 <= k < |targets| && Equal(targets[k].1, v) :: k == j
  {
    var rest := targets[1..];
    assert forall k | 0 < k < |targets| :: targets[k] == rest[k - 1];
    if Equal(targets[0].1, v) {
      j := 0;
      NoNames(rest, v);
    } else {
      var i := SoleName(rest, v);
      j := i + 1;
    }
  }

  /** Block b opens where x inserts, is unmarked, and parses to a dict equal to exactly one target, that of x's name. */
  ghost predicate RightBlock(parse: Parser, targets: Items, lines: seq<string>, b: Block, x: Insert) {
    && b.open == x.open && !Tagged(lines, b.open)
    && parse(b.lang, b.body).Some? && parse(b.lang, b.body).value.Dict?
    && exists j | 0 <= j < |targets| ::
         && targets[j].0 == x.name && Equal(targets[j].1, parse(b.lang, b.body).value)
         && forall k | 0 <= k < |targets| && Equal(targets[k].1, parse(b.lang, b.body).value) :: k == j
  }

  ghost predicate RightlyChosen(parse: Parser, targets: Items, lines: seq<string>, bs: seq<Block>, x: Insert) {
    exists i | 0 <= i < |bs| :: RightBlock(parse, targets, lines, bs[i], x)
  }

  lemma CandidateRight(parse: Parser, targets: Items, lines: seq<string>, b: Block)
    requires Candidate(parse, targets, lines, b).Some?
    ensures RightBlock(parse, targets, lines, b, Insert(b.open, Candidate(parse, targets, lines, b).value))
  {
    var v := parse(b.lang, b.body).value;
    var j := SoleName(targets, v);
  }

  lemma {:induction false} CandidatesRight(parse: Parser, targets: Items, lines: seq<string>, bs: seq<Block>, x: Insert)
    requires x in Candidates(parse, targets, lines, bs)
    ensures RightlyChosen(parse, targets, lines, bs, x)
  {
    if Candidate(parse, targets, lines, bs[0]).Some? && x == Insert(bs[0].open, Candidate(parse, targets, lines, bs[0]).value) {
      CandidateRight(parse, targets, lines, bs[0]);
    } else {
      CandidatesRight(parse, targets, lines, bs[1..], x);
      var i :| 0 <= i < |bs[1..]| && RightBlock(parse, targets, lines, bs[1..][i], x);
      assert bs[i + 1] == bs[1..][i];
    }
  }

  lemma {:induction false} FirstsAmong(cs: seq<Insert>, used: set<string>)
    ensures forall x | x in FirstPerName(cs, used) :: x in cs
  {
    if cs != [] {
      FirstsAmong(cs[1..], if cs[0].name in used then used else used + {cs[0].name});
    }
  }

  /** Every marker names a dict of the manifest that equals the value of the fence below it. */
  lemma ChosenRight(parse: Parser, manifest: Items, lines: seq<string>, x: Insert)
    requires x in Chosen(parse, manifest, lines)
    ensures RightlyChosen(parse, Targets(manifest), lines, Blocks(lines), x)
  {
    FirstsAmong(AllCandidates(parse, manifest, lines), {});
    CandidatesRight(parse, Targets(manifest), lines, Blocks(lines), x);
  }

  /** Two equal dicts in the manifest make every fence that matches them ambiguous: neither name is ever used. */
  lemma TwinEntriesAreSkipped(parse: Parser, manifest: Items, lines: seq<string>, x: Insert, i: nat, j: nat)
    requires var ts := Targets(manifest); i < j < |ts| && Same(ts[i].1, ts[j].1)
    requires x in Chosen(parse, manifest, lines)
    ensures exists b, m | b in Blocks(lines) && 0 <= m < |Targets(manifest)| ::
              && b.open == x.open && m != i && m != j && Targets(manifest)[m].0 == x.name
              && parse(b.lang, b.body).Some? && Equal(Targets(manifest)[m].1, parse(b.lang, b.body).value)
  {
    var ts := Targets(manifest);
    ChosenRight(parse, manifest, lines, x);
    var n :| 0 <= n < |Blocks(lines)| && RightBlock(parse, ts, lines, Blocks(lines)[n], x);
    var b := Blocks(lines)[n];
    var v := parse(b.lang, b.body).value;
    var m :| 0 <= m < |ts| && ts[m].0 == x.name && Equal(ts[m].1, v)
             && forall k | 0 <= k < |ts| && Equal(ts[k].1, v) :: k == m;
    if m == i {
      SameSym(ts[i].1, ts[j].1);
      SameTrans(ts[j].1, ts[i].1, v);
    } else if m == j {
      SameTrans(ts[i].1, ts[j].1, v);
    }
    assert b in Blocks(lines);
  }

  // ----- the fences that are marked ----------------------------------------------------------

  /** A value equal to one target only has one name. */
  lemma SoleTarget(targets: Items, v: Value, j: nat)
    requires j < |targets| && Equal(targets[j].1, v) && forall k | 0 <= k < |targets| && Equal(targets[k].1, v) :: k == j
    ensures NamesFor(targets, v) == [targets[j].0]
  {
    var js := NamesForPlaces(targets, v);
    assert j in js;
    forall k | 0 <= k < |js| ensures js[k] == j {
      assert js[k] in js;
    }
    assert js[|js| - 1] == js[0];
  }

  /** The candidate a fence is for a name, exactly. */
  lemma RightExact(parse: Parser, targets: Items, lines: seq<string>, b: Block, x: Insert)
    ensures RightBlock(parse, targets, lines, b, x) <==>
            x.open == b.open && Candidate(parse, targets, lines, b) == Some(x.name)
  {
    if x.open == b.open && Candidate(parse, targets, lines, b) == Some(x.name) {
      CandidateRight(parse, targets, lines, b);
    }
    if RightBlock(parse, targets, lines, b, x) {
      var v := parse(b.lang, b.body).value;
      var j :| 0 <= j < |targets| && targets[j].0 == x.name && Equal(targets[j].1, v)
               && forall k | 0 <= k < |targets| && Equal(targets[k].1, v) :: k == j;
      SoleTarget(targets, v, j);
    }
  }

  /** Fence i is right for x, and no fence further up is right for x's name. */
  ghost predicate FirstRight(parse: Parser, targets: Items, lines: seq<string>, bs: seq<Block>, x: Insert, i: nat) {
    && i < |bs| && RightBlock(parse, targets, lines, bs[i], x)
    && forall k | 0 <= k < i :: !RightBlock(parse, targets, lines, bs[k], Insert(bs[k].open, x.name))
  }

  ghost predicate MarkedAt(parse: Parser, targets: Items, lines: seq<string>, bs: seq<Block>, used: set<string>, x: Insert, i: nat) {
    x.name !in used && FirstRight(parse, targets, lines, bs, x, i)
  }

  lemma MarkedFirst(parse: Parser, targets: Items, lines: seq<string>, bs: seq<Block>, used: set<string>, x: Insert)
    requires bs != []
    ensures MarkedAt(parse, targets, lines, bs, used, x, 0) <==> x in InsertOf(parse, targets, lines, bs[0], used)
  {
    RightExact(parse, targets, lines, bs[0], x);
  }

  lemma MarkedLater(parse: Parser, targets: Items, lines: seq<string>, bs: seq<Block>, used: set<string>, x: Insert, i: nat)
    requires bs != []
    ensures MarkedAt(parse, targets, lines, bs, used, x, i + 1) <==>
            MarkedAt(parse, targets, lines, bs[1..], NowUsed(parse, targets, lines, bs[0], used), x, i)
  {
    RightExact(parse, targets, lines, bs[0], Insert(bs[0].open, x.name));
    assert forall k | 0 <= k < |bs[1..]| :: bs[1..][k] == bs[k + 1];
    if MarkedAt(parse, targets, lines, bs, used, x, i + 1) {
      forall k | 0 <= k < i ensures !RightBlock(parse, targets, lines, bs[1..][k], Insert(bs[1..][k].open, x.name)) {
        assert !RightBlock(parse, targets, lines, bs[k + 1], Insert(bs[k + 1].open, x.name));
      }
    }
    if MarkedAt(parse, targets, lines, bs[1..], NowUsed(parse, targets, lines, bs[0], used), x, i) {
      forall k | 0 <= k < i + 1 ensures !RightBlock(parse, targets, lines, bs[k], Insert(bs[k].open, x.name)) {
        if k > 0 {
          assert !RightBlock(parse, targets, lines, bs[1..][k - 1], Insert(bs[1..][k - 1].open, x.name));
        }
      }
    }
  }

  lemma EitherPart<T>(xs: seq<T>, ys: seq<T>, x: T)
    ensures x in xs + ys <==> x in xs || x in ys
  {
  }

  lemma {:induction false} FirstsExact(parse: Parser, targets: Items, lines: seq<string>, bs: seq<Block>, used: set<string>, x: Insert)
    ensures x in FirstPerName(Candidates(parse, targets, lines, bs), used) <==>
            exists i: nat :: MarkedAt(parse, targets, lines, bs, used, x, i)
    decreases |bs|
  {
    if bs != [] {
      var later := NowUsed(parse, targets, lines, bs[0], used);
      ChooseNext(parse, targets, lines, bs, used);
      FirstsExact(parse, targets, lines, bs[1..], later, x);
      EitherPart(InsertOf(parse, targets, lines, bs[0], used), FirstPerName(Candidates(parse, targets, lines, bs[1..]), later), x);
      MarkedFirst(parse, targets, lines, bs, used, x);
      if i: nat :| MarkedAt(parse, targets, lines, bs[1..], later, x, i) {
        MarkedLater(parse, targets, lines, bs, used, x, i);
      }
      if i: nat :| MarkedAt(parse, targets, lines, bs, used, x, i) {
        if i > 0 { MarkedLater(parse, targets, lines, bs, used, x, i - 1); }
      }
    }
  }

  /** A marker goes above every fence that is unmarked and parses to a dict equal to exactly one dict of the manifest, if no
      fence further up does so for the same name. */
  lemma RightIsChosen(parse: Parser, manifest: Items, lines: seq<string>, x: Insert, i: nat)
    requires FirstRight(parse, Targets(manifest), lines, Blocks(lines), x, i)
    ensures x in Chosen(parse, manifest, lines)
  {
    var none: set<string> := {};
    assert MarkedAt(parse, Targets(manifest), lines, Blocks(lines), none, x, i);
    FirstsExact(parse, Targets(manifest), lines, Blocks(lines), none, x);
  }

  /** And above no other. */
  lemma ChosenIsRight(parse: Parser, manifest: Items, lines: seq<string>, x: Insert) returns (i: nat)
    requires x in Chosen(parse, manifest, lines)
    ensures FirstRight(parse, Targets(manifest), lines, Blocks(lines), x, i)
  {
    var none: set<string> := {};
    FirstsExact(parse, Targets(manifest), lines, Blocks(lines), none, x);
    i :| MarkedAt(parse, Targets(manifest), lines, Blocks(lines), none, x, i);
  }

  // ----- the fences that are warned of -------------------------------------------------------

  function LineOf(w: Warning): nat {
    w.line
  }

  /** Fence i is warned of: its dict equals several targets, or it is right for a name that came up further up. */
  ghost predicate WarnedAt(parse: Parser, targets: Items, lines: seq<string>, bs: seq<Block>, used: set<string>, w: Warning, i: nat) {
    i < |bs| && w.line == bs[i].open + 1
    && match w
       case Ambiguous(_, names) =>
         && parse(bs[i].lang, bs[i].body).Some? && parse(bs[i].lang, bs[i].body).value.Dict?
         && names == NamesFor(targets, parse(bs[i].lang, bs[i].body).value) && |names| > 1
       case Repeated(_, name) =>
         && RightBlock(parse, targets, lines, bs[i], Insert(bs[i].open, name))
         && (name in used || exists k: nat | k < i :: RightBlock(parse, targets, lines, bs[k], Insert(bs[k].open, name)))
  }

  lemma WarnedFirst(parse: Parser, targets: Items, lines: seq<string>, bs: seq<Block>, used: set<string>, w: Warning)
    requires bs != []
    ensures WarnedAt(parse, targets, lines, bs, used, w, 0) <==> w in WarningsOf(parse, targets, lines, bs[0], used)
  {
    if w.Repeated? {
      RightExact(parse, targets, lines, bs[0], Insert(bs[0].open, w.name));
    }
  }

  lemma WarnedLater(parse: Parser, targets: Items, lines: seq<string>, bs: seq<Block>, used: set<string>, w: Warning, i: nat)
    requires bs != []
    ensures WarnedAt(parse, targets, lines, bs, used, w, i + 1) <==>
            WarnedAt(parse, targets, lines, bs[1..], NowUsed(parse, targets, lines, bs[0], used), w, i)
  {
    assert forall k | 0 <= k < |bs[1..]| :: bs[1..][k] == bs[k + 1];
    if w.Repeated? {
      RightExact(parse, targets, lines, bs[0], Insert(bs[0].open, w.name));
      if k: nat :| k < i && i < |bs[1..]| && RightBlock(parse, targets, lines, bs[1..][k], Insert(bs[1..][k].open, w.name)) {
        assert RightBlock(parse, targets, lines, bs[k + 1], Insert(bs[k + 1].open, w.name));
      }
      if k: nat :| k < i + 1 < |bs| && RightBlock(parse, targets, lines, bs[k], Insert(bs[k].open, w.name)) {
        assert k > 0 ==> RightBlock(parse, targets, lines, bs[1..][k - 1], Insert(bs[1..][k - 1].open, w.name));
      }
    }
  }

  /** What the run warns of, exactly. */
  lemma {:induction false} WarningsExact(parse: Parser, targets: Items, lines: seq<string>, bs: seq<Block>, used: set<string>, w: Warning)
    ensures w in Warnings(parse, targets, lines, bs, used) <==>
            exists i: nat :: WarnedAt(parse, targets, lines, bs, used, w, i)
    decreases |bs|
  {
    if bs != [] {
      var later := NowUsed(parse, targets, lines, bs[0], used);
      WarningsExact(parse, targets, lines, bs[1..], later, w);
      EitherPart(WarningsOf(parse, targets, lines, bs[0], used), Warnings(parse, targets, lines, bs[1..], later), w);
      WarnedFirst(parse, targets, lines, bs, used, w);
      if i: nat :| WarnedAt(parse, targets, lines, bs[1..], later, w, i) {
        WarnedLater(parse, targets, lines, bs, used, w, i);
      }
      if i: nat :| WarnedAt(parse, targets, lines, bs, used, w, i) {
        if i > 0 { WarnedLater(parse, targets, lines, bs, used, w, i - 1); }
      }
    }
  }

  predicate AscendsFrom(ws: seq<Warning>, lo: nat) {
    && (forall i | 0 <= i < |ws| :: lo <= LineOf(ws[i]))
    && forall i, j | 0 <= i < j < |ws| :: LineOf(ws[i]) < LineOf(ws[j])
  }

  lemma AscendsMore(first: seq<Warning>, rest: seq<Warning>, lo: nat)
    requires |first| <= 1 && (first != [] ==> LineOf(first[0]) == lo) && AscendsFrom(rest, lo + 1)
    ensures AscendsFrom(first + rest, lo)
  {
  }

  /** The warnings come in the order of the lines, one at most for each fence. */
  lemma {:induction false} WarningsAscend(parse: Parser, targets: Items, lines: seq<string>, bs: seq<Block>, used: set<string>)
    requires InOrder(bs)
    ensures AscendsFrom(Warnings(parse, targets, lines, bs, used), if bs == [] then 0 else bs[0].open + 1)
    decreases |bs|
  {
    if bs != [] {
      var later := NowUsed(parse, targets, lines, bs[0], used);
      var first, rest := WarningsOf(parse, targets, lines, bs[0], used), Warnings(parse, targets, lines, bs[1..], later);
      WarningsAscend(parse, targets, lines, bs[1..], later);
      if bs[1..] == [] {
        assert rest == [];
      } else {
        assert bs[0].open < bs[1].open;
      }
      AscendsMore(first, rest, bs[0].open + 1);
    }
  }
}
