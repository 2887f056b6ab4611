/** The lines a marker is written as. A name that runs over several lines breaks its marker up. */
module Markers {
  import opened Text
  import opened Fences
  import opened Tagging
  import opened Reparsing

  function MarkerLines(name: string): (ls: seq<string>)
    ensures |ls| >= 1
  {
    Split(MarkerLine(name))
  }

  function LastLine(name: string): string {
    MarkerLines(name)[|MarkerLines(name)| - 1]
  }

  /** The line right above the fence is taken for a marker on the next run. */
  predicate Recognised(name: string) {
    IsMarker(LastLine(name))
  }

  /** No line of the marker opens a fence. */
  predicate Harmless(name: string) {
    NoneOpens(MarkerLines(name))
  }

  lemma OneLineMarker(name: string)
    requires '\n' !in name
    ensures MarkerLines(name) == ["<!-- example: " + name + " -->"] && Harmless(name) && (Recognised(name) <==> '>' !in name)
  {
    SplitLine(MarkerLine(name));
    MarkerIsNoFence(name);
    MarkerRecognised(name);
  }

  lemma LastLineIsNotBlank(name: string)
    ensures !IsBlankLine(LastLine(name))
  {
    var line := MarkerLine(name);
    assert line[|line| - 1] == '>';
    LastLineEnds(line);
  }

  function PatchOf(x: Insert): Patch {
    Patch(x.open, MarkerLines(x.name))
  }

  function Patches(ins: seq<Insert>): (ps: seq<Patch>)
    ensures |ps| == |ins| && forall i | 0 <= i < |ps| :: ps[i] == PatchOf(ins[i])
  {
    seq(|ins|, i requires 0 <= i < |ins| => PatchOf(ins[i]))
  }

  /** A fence that got a marker counts as tagged afterwards exactly when the marker is recognised. */
  lemma MarkedIsTagged(lines: seq<string>, ins: seq<Insert>, out: seq<string>, i: nat)
    requires Merged(lines, Patches(ins), out) && i < |ins|
    ensures Tagged(out, NewIndex(Patches(ins), ins[i].open)) <==> Recognised(ins[i].name)
  {
    assert Patches(ins)[i] == PatchOf(ins[i]);
    LastLineIsNotBlank(ins[i].name);
    TaggedNew(lines, Patches(ins), out, i);
  }

  lemma SplitPlain(lines: seq<string>, k: nat)
    requires k < |lines| && '\n' !in lines[k]
    ensures Split(lines[k]) == [lines[k]]
  {
    SplitLine(lines[k]);
  }

  lemma SplitAllCons(t: string, ts: seq<string>)
    ensures SplitAll([t] + ts) == Split(t) + SplitAll(ts)
  {
    assert ([t] + ts)[1..] == ts;
  }

  lemma PatchesTail(ins: seq<Insert>)
    requires ins != []
    ensures Patches(ins)[1..] == Patches(ins[1..])
  {
  }

  lemma MergedPlain(lines: seq<string>, k: nat, rest: seq<string>)
    requires k < |lines| && '\n' !in lines[k]
    ensures SplitAll([lines[k]] + rest) == [lines[k]] + SplitAll(rest)
  {
    SplitPlain(lines, k);
    SplitAllCons(lines[k], rest);
  }

  lemma MergedMarked(lines: seq<string>, k: nat, name: string, rest: seq<string>)
    requires k < |lines| && '\n' !in lines[k]
    ensures SplitAll([MarkerLine(name), lines[k]] + rest) == MarkerLines(name) + [lines[k]] + SplitAll(rest)
  {
    MergedPlain(lines, k, rest);
    SplitAllCons(MarkerLine(name), [lines[k]] + rest);
    assert [MarkerLine(name), lines[k]] + rest == [MarkerLine(name)] + ([lines[k]] + rest);
  }

  /** The lines of the marked text are the old lines with every marker's lines above its fence. */
  lemma {:induction false} MergedLines(lines: seq<string>, k: nat, ins: seq<Insert>)
    requires k <= |lines| && forall i | 0 <= i < |lines| :: '\n' !in lines[i]
    ensures SplitAll(Merge(lines, k, ins)) == Interleave(lines, k, Patches(ins))
    decreases |lines| - k
  {
    if k < |lines| {
      if ins != [] && ins[0].open == k {
        MergedLines(lines, k + 1, ins[1..]);
        PatchesTail(ins);
        MergedMarked(lines, k, ins[0].name, Merge(lines, k + 1, ins[1..]));
      } else {
        MergedLines(lines, k + 1, ins);
        MergedPlain(lines, k, Merge(lines, k + 1, ins));
      }
    }
  }

  lemma SplitMerged(lines: seq<string>, ins: seq<Insert>)
    requires |lines| >= 1 && forall i | 0 <= i < |lines| :: '\n' !in lines[i]
    ensures Split(Join(Merge(lines, 0, ins))) == Interleave(lines, 0, Patches(ins))
  {
    SplitJoinAll(Merge(lines, 0, ins));
    MergedLines(lines, 0, ins);
  }
}
