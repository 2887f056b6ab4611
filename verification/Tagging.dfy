/** The auto-tagger: choosing the fences to mark and inserting the markers. */
module Tagging {
  import opened Outcomes
  import opened Text
  import opened Fences
  import opened Values

  /** How a fence body is parsed, from its language word and its text; None stands for a parse error. */
  type Parser = (string, string) -> Option<Value>

  type Items = seq<(string, Value)>

  datatype Insert = Insert(open: nat, name: string)

  datatype Warning = Ambiguous(line: nat, names: seq<string>) | Repeated(line: nat, name: string)

  /** The dict-valued blocks of the manifest, in order. */
  function Targets(manifest: Items): Items {
    if manifest == [] then []
    else (if manifest[0].1.Dict? then [manifest[0]] else []) + Targets(manifest[1..])
  }

  /** The names of the targets whose value equals v. */
  function NamesFor(targets: Items, v: Value): seq<string> {
    if targets == [] then []
    else (if Equal(targets[0].1, v) then [targets[0].0] else []) + NamesFor(targets[1..], v)
  }

  /** The names a fence matches; none when it does not parse to a dict. */
  function FenceNames(parse: Parser, targets: Items, b: Block): seq<string> {
    match parse(b.lang, b.body)
    case None => []
    case Some(v) => if v.Dict? then NamesFor(targets, v) else []
  }

  /** The name of an unmarked fence that matches exactly one. */
  function Candidate(parse: Parser, targets: Items, lines: seq<string>, b: Block): Option<string>
  {
    var names := FenceNames(parse, targets, b);
    if |names| == 1 && !Tagged(lines, b.open) then Some(names[0]) else None
  }

  function Candidates(parse: Parser, targets: Items, lines: seq<string>, bs: seq<Block>): seq<Insert>
  {
    if bs == [] then []
    else
      var rest := Candidates(parse, targets, lines, bs[1..]);
      match Candidate(parse, targets, lines, bs[0])
      case None => rest
      case Some(name) => [Insert(bs[0].open, name)] + rest
  }

  /** The first candidate of each name not used yet. */
  function FirstPerName(cs: seq<Insert>, used: set<string>): seq<Insert> {
    if cs == [] then []
    else if cs[0].name in used then FirstPerName(cs[1..], used)
    else [cs[0]] + FirstPerName(cs[1..], used + {cs[0].name})
  }

  /** What is reported of one fence: that it is ambiguous, or that its name came up earlier. */
  function WarningsOf(parse: Parser, targets: Items, lines: seq<string>, b: Block, used: set<string>): seq<Warning>
  {
    var names := FenceNames(parse, targets, b);
    if |names| > 1 then [Ambiguous(b.open + 1, names)]
    else
      match Candidate(parse, targets, lines, b)
      case None => []
      case Some(name) => if name in used then [Repeated(b.open + 1, name)] else []
  }

  function NowUsed(parse: Parser, targets: Items, lines: seq<string>, b: Block, used: set<string>): set<string>
  {
    match Candidate(parse, targets, lines, b)
    case None => used
    case Some(name) => used + {name}
  }

  function InsertOf(parse: Parser, targets: Items, lines: seq<string>, b: Block, used: set<string>): seq<Insert>
  {
    match Candidate(parse, targets, lines, b)
    case None => []
    case Some(name) => if name in used then [] else [Insert(b.open, name)]
  }

  function Warnings(parse: Parser, targets: Items, lines: seq<string>, bs: seq<Block>, used: set<string>): seq<Warning>
  {
    if bs == [] then []
    else
      WarningsOf(parse, targets, lines, bs[0], used)
      + Warnings(parse, targets, lines, bs[1..], NowUsed(parse, targets, lines, bs[0], used))
  }

  function Names(cs: seq<Insert>): seq<string> {
    seq(|cs|, i requires 0 <= i < |cs| => cs[i].name)
  }

  predicate Ascending(ins: seq<Insert>) {
    forall i, j | 0 <= i < j < |ins| :: ins[i].open < ins[j].open
  }

  /** All markers put above their lines at once, from line k on. */
  function Merge(lines: seq<string>, k: nat, ins: seq<Insert>): seq<string>
    requires k <= |lines|
    decreases |lines| - k
  {
    if k == |lines| then []
    else if ins != [] && ins[0].open == k then
      [MarkerLine(ins[0].name), lines[k]] + Merge(lines, k + 1, ins[1..])
    else
      [lines[k]] + Merge(lines, k + 1, ins)
  }

  lemma {:induction false} MergeSkips(lines: seq<string>, k: nat, upto: nat, ins: seq<Insert>)
    requires k <= upto <= |lines| && (ins == [] || upto <= ins[0].open)
    ensures Merge(lines, k, ins) == lines[k..upto] + Merge(lines, upto, ins)
    decreases |lines| - k
  {
    if k < upto {
      MergeSkips(lines, k + 1, upto, ins);
      assert lines[k..upto] == [lines[k]] + lines[k + 1..upto];
    }
  }

  lemma MergeHead(lines: seq<string>, x: Insert, rest: seq<Insert>)
    requires x.open < |lines|
    ensures Merge(lines, x.open, [x] + rest)
         == [MarkerLine(x.name), lines[x.open]] + Merge(lines, x.open + 1, rest)
  {
    assert ([x] + rest)[1..] == rest;
  }

  lemma InsertInto<T>(lines: seq<T>, o: nat, at: nat, tail: seq<T>, marker: T)
    requires o < at <= |lines|
    ensures var out := lines[..at] + tail;
            out[..o] + [marker] + out[o..]
            == lines[..o] + ([marker, lines[o]] + (lines[o + 1..at] + tail))
  {
    var out := lines[..at] + tail;
    assert out[o..] == [lines[o]] + (lines[o + 1..at] + tail);
  }

  lemma MergeOneMore(lines: seq<string>, x: Insert, at: nat, rest: seq<Insert>, out: seq<string>)
    requires x.open < at <= |lines| && (rest == [] || at <= rest[0].open)
    requires out == lines[..at] + Merge(lines, at, rest)
    ensures out[..x.open] + [MarkerLine(x.name)] + out[x.open..]
         == lines[..x.open] + Merge(lines, x.open, [x] + rest)
  {
    MergeSkips(lines, x.open + 1, at, rest);
    MergeHead(lines, x, rest);
    InsertInto(lines, x.open, at, Merge(lines, at, rest), MarkerLine(x.name));
  }

  /** Inserting from the last position to the first keeps earlier positions valid, so the loop
      produces the simultaneous merge. */
  method InsertMarkers(lines: seq<string>, ins: seq<Insert>) returns (out: seq<string>)
    requires Ascending(ins) && forall i | 0 <= i < |ins| :: ins[i].open < |lines|
    ensures out == Merge(lines, 0, ins)
  {
    out := lines;
    var j := |ins|;
    ghost var at := |lines|;
    while j > 0
      invariant 0 <= j <= |ins|
      invariant at == if j < |ins| then ins[j].open else |lines|
      invariant out == lines[..at] + Merge(lines, at, ins[j..])
    {
      j := j - 1;
      var x := ins[j];
      MergeOneMore(lines, x, at, ins[j + 1..], out);
      assert ins[j..] == [x] + ins[j + 1..];
      out := out[..x.open] + [MarkerLine(x.name)] + out[x.open..];
      at := x.open;
    }
    MergeSkips(lines, 0, at, ins);
    assert ins[0..] == ins;
  }

  // ----- the whole run -----------------------------------------------------------------------

  function AllCandidates(parse: Parser, manifest: Items, lines: seq<string>): seq<Insert> {
    Candidates(parse, Targets(manifest), lines, Blocks(lines))
  }

  function Chosen(parse: Parser, manifest: Items, lines: seq<string>): seq<Insert> {
    FirstPerName(AllCandidates(parse, manifest, lines), {})
  }

  function TagText(parse: Parser, manifest: Items, text: string): string {
    var lines := Split(text);
    Join(Merge(lines, 0, Chosen(parse, manifest, lines)))
  }

  predicate InOrder(bs: seq<Block>) {
    forall i, j | 0 <= i < j < |bs| :: bs[i].open < bs[j].open
  }

  lemma BlocksInOrder(lines: seq<string>)
    ensures InOrder(Blocks(lines))
  {
    var bs := Blocks(lines);
    BlocksExact(lines, bs);
    forall i, j | 0 <= i < j < |bs| ensures bs[i].open < bs[j].open {
      assert IsFence(lines, bs[i]);
    }
  }

  predicate AllOpen(bs: seq<Block>, ins: seq<Insert>) {
    forall i | 0 <= i < |ins| :: Opens(bs, ins[i].open)
  }

  predicate AllAfter(ins: seq<Insert>, o: nat) {
    forall i | 0 <= i < |ins| :: o < ins[i].open
  }

  lemma OpensAfter(bs: seq<Block>, ins: seq<Insert>)
    requires bs != [] && InOrder(bs) && AllOpen(bs[1..], ins)
    ensures AllOpen(bs, ins) && AllAfter(ins, bs[0].open)
  {
    forall i | 0 <= i < |ins| ensures Opens(bs, ins[i].open) && bs[0].open < ins[i].open {
      var j :| 0 <= j < |bs[1..]| && bs[1..][j].open == ins[i].open;
      assert bs[j + 1].open == ins[i].open;
    }
  }

  lemma {:induction false} CandidatesAscend(parse: Parser, targets: Items, lines: seq<string>, bs: seq<Block>)
    requires InOrder(bs)
    ensures Ascending(Candidates(parse, targets, lines, bs)) && AllOpen(bs, Candidates(parse, targets, lines, bs))
  {
    if bs != [] {
      CandidatesAscend(parse, targets, lines, bs[1..]);
      OpensAfter(bs, Candidates(parse, targets, lines, bs[1..]));
      assert Opens(bs, bs[0].open);
    }
  }

  lemma {:induction false} FirstsAscend(bs: seq<Block>, cs: seq<Insert>, used: set<string>, o: int)
    requires Ascending(cs) && AllOpen(bs, cs) && (cs == [] || o < cs[0].open)
    ensures var firsts := FirstPerName(cs, used);
            Ascending(firsts) && AllOpen(bs, firsts) && forall i | 0 <= i < |firsts| :: o < firsts[i].open
  {
    if cs != [] {
      FirstsAscend(bs, cs[1..], if cs[0].name in used then used else used + {cs[0].name}, cs[0].open);
    }
  }

  lemma ChosenAscend(parse: Parser, manifest: Items, lines: seq<string>)
    ensures var ins := Chosen(parse, manifest, lines);
            Ascending(ins) && AllOpen(Blocks(lines), ins) && forall i | 0 <= i < |ins| :: ins[i].open < |lines|
  {
    BlocksInOrder(lines);
    CandidatesAscend(parse, Targets(manifest), lines, Blocks(lines));
    FirstsAscend(Blocks(lines), AllCandidates(parse, manifest, lines), {}, -1);
  }

  lemma ChooseNext(parse: Parser, targets: Items, lines: seq<string>, bs: seq<Block>, used: set<string>)
    requires bs != []
    ensures FirstPerName(Candidates(parse, targets, lines, bs), used)
         == InsertOf(parse, targets, lines, bs[0], used)
            + FirstPerName(Candidates(parse, targets, lines, bs[1..]), NowUsed(parse, targets, lines, bs[0], used))
  {
    var rest := Candidates(parse, targets, lines, bs[1..]);
    match Candidate(parse, targets, lines, bs[0])
    case None =>
    case Some(name) =>
      assert ([Insert(bs[0].open, name)] + rest)[1..] == rest;
      assert name in used ==> used + {name} == used;
  }

  function Pending(parse: Parser, targets: Items, lines: seq<string>, bs: seq<Block>, used: set<string>)
    : (seq<Insert>, seq<Warning>)
  {
    (FirstPerName(Candidates(parse, targets, lines, bs), used), Warnings(parse, targets, lines, bs, used))
  }

  lemma PendingNext(parse: Parser, targets: Items, lines: seq<string>, bs: seq<Block>, i: nat, used: set<string>)
    requires i < |bs|
    ensures var now, later := Pending(parse, targets, lines, bs[i..], used),
                              Pending(parse, targets, lines, bs[i + 1..], NowUsed(parse, targets, lines, bs[i], used));
            && now.0 == InsertOf(parse, targets, lines, bs[i], used) + later.0
            && now.1 == WarningsOf(parse, targets, lines, bs[i], used) + later.1
  {
    ChooseNext(parse, targets, lines, bs[i..], used);
    assert bs[i..][0] == bs[i] && bs[i..][1..] == bs[i + 1..];
  }

  /** One pass of the tagger's loop over the blocks. */
  method Consider(parse: Parser, targets: Items, lines: seq<string>, b: Block, used: set<string>)
    returns (inserts: seq<Insert>, warnings: seq<Warning>, used': set<string>)
    requires b.open <= |lines|
    ensures inserts == InsertOf(parse, targets, lines, b, used)
    ensures warnings == WarningsOf(parse, targets, lines, b, used)
    ensures used' == NowUsed(parse, targets, lines, b, used)
  {
    inserts, warnings, used' := [], [], used;
    var value := parse(b.lang, b.body);
    if value == None || !value.value.Dict? {
      return;
    }
    var names := NamesFor(targets, value.value);
    if names == [] {
      return;
    }
    if |names| > 1 {
      warnings := [Ambiguous(b.open + 1, names)];
      return;
    }
    var name := names[0];
    var marked := AlreadyTagged(lines, b.open);
    if marked {
      return;
    }
    if name in used {
      assert used + {name} == used;
      warnings := [Repeated(b.open + 1, name)];
      return;
    }
    used' := used + {name};
    inserts := [Insert(b.open, name)];
  }

  lemma Associate<T>(a: seq<T>, b: seq<T>, c: seq<T>)
    ensures a + (b + c) == a + b + c
  {
  }

  method Choose(parse: Parser, manifest: Items, lines: seq<string>)
    returns (inserts: seq<Insert>, warnings: seq<Warning>)
    ensures inserts == Chosen(parse, manifest, lines)
    ensures warnings == Warnings(parse, Targets(manifest), lines, Blocks(lines), {})
  {
    var targets := Targets(manifest);
    var blocks := FindBlocks(lines);
    var used: set<string> := {};
    inserts, warnings := [], [];
    ghost var all := Pending(parse, targets, lines, blocks, {});
    assert blocks[0..] == blocks;
    for i := 0 to |blocks|
      invariant inserts + Pending(parse, targets, lines, blocks[i..], used).0 == all.0
      invariant warnings + Pending(parse, targets, lines, blocks[i..], used).1 == all.1
    {
      PendingNext(parse, targets, lines, blocks, i, used);
      var xs, ws, used' := Consider(parse, targets, lines, blocks[i], used);
      ghost var later := Pending(parse, targets, lines, blocks[i + 1..], used');
      Associate(inserts, xs, later.0);
      Associate(warnings, ws, later.1);
      inserts, warnings, used := inserts + xs, warnings + ws, used';
    }
  }

  /** Of the candidates, exactly those are chosen that no earlier candidate shares a name with. */
  lemma {:induction false} FirstPerNameExact(cs: seq<Insert>, used: set<string>, i: nat)
    requires Ascending(cs) && i < |cs|
    ensures cs[i] in FirstPerName(cs, used) <==>
            cs[i].name !in used && forall j | 0 <= j < i :: cs[j].name != cs[i].name
  {
    var later := if cs[0].name in used then used else used + {cs[0].name};
    if i == 0 {
      FirstsAfter(cs[1..], later, cs[0].open);
    } else {
      FirstPerNameExact(cs[1..], later, i - 1);
      assert cs[1..][i - 1] == cs[i];
      assert forall j | 0 < j < i :: cs[1..][j - 1] == cs[j];
    }
  }

  lemma {:induction false} FirstsAfter(cs: seq<Insert>, used: set<string>, o: nat)
    requires AllAfter(cs, o)
    ensures AllAfter(FirstPerName(cs, used), o)
  {
    if cs != [] {
      FirstsAfter(cs[1..], if cs[0].name in used then used else used + {cs[0].name}, o);
    }
  }

  /** One run of the tagger. */
  method Tag(parse: Parser, manifest: Items, text: string)
    returns (newText: string, tagged: seq<string>, warnings: seq<Warning>)
    ensures newText == TagText(parse, manifest, text)
    ensures |tagged| == |Chosen(parse, manifest, Split(text))|
    ensures forall i | 0 <= i < |tagged| :: tagged[i] == Chosen(parse, manifest, Split(text))[i].name
    ensures warnings == Warnings(parse, Targets(manifest), Split(text), Blocks(Split(text)), {})
  {
    var lines := Split(text);
    var inserts;
    inserts, warnings := Choose(parse, manifest, lines);
    tagged := Names(inserts);
    ChosenAscend(parse, manifest, lines);
    var out := InsertMarkers(lines, inserts);
    newText := Join(out);
  }
}
