/** What inserting lines above fences does to a document: nothing is lost, and its fences are found again, unchanged, at
    shifted positions. */
module Reparsing {
  import opened Text
  import opened Fences

  /** Lines that are inserted above line `open`. */
  datatype Patch = Patch(open: nat, lines: seq<string>)

  predicate Ascends(ins: seq<Patch>) {
    forall i, j | 0 <= i < j < |ins| :: ins[i].open < ins[j].open
  }

  /** All patches put above their lines at once, from line k on. */
  function Interleave(lines: seq<string>, k: nat, ins: seq<Patch>): seq<string>
    requires k <= |lines|
    decreases |lines| - k
  {
    if k == |lines| then []
    else if ins != [] && ins[0].open == k then ins[0].lines + [lines[k]] + Interleave(lines, k + 1, ins[1..])
    else [lines[k]] + Interleave(lines, k + 1, ins)
  }

  lemma {:induction false} InterleaveSkips(lines: seq<string>, k: nat, upto: nat, ins: seq<Patch>)
    requires k <= upto <= |lines| && (ins == [] || upto <= ins[0].open)
    ensures Interleave(lines, k, ins) == lines[k..upto] + Interleave(lines, upto, ins)
    decreases |lines| - k
  {
    if k < upto {
      InterleaveSkips(lines, k + 1, upto, ins);
      assert lines[k..upto] == [lines[k]] + lines[k + 1..upto];
    }
  }

  lemma InterleaveHead(lines: seq<string>, x: Patch, rest: seq<Patch>)
    requires x.open < |lines|
    ensures Interleave(lines, x.open, [x] + rest) == x.lines + [lines[x.open]] + Interleave(lines, x.open + 1, rest)
  {
    assert ([x] + rest)[1..] == rest;
  }

  /** The number of lines inserted above lines before k. */
  function Above(ins: seq<Patch>, k: nat): nat {
    if ins == [] then 0 else (if ins[0].open < k then |ins[0].lines| else 0) + Above(ins[1..], k)
  }

  /** The number of lines inserted right above line k. */
  function Depth(ins: seq<Patch>, k: nat): nat {
    if ins == [] then 0 else if ins[0].open == k then |ins[0].lines| else Depth(ins[1..], k)
  }

  /** Where line k ends up: shifted by the number of lines inserted at or before it. */
  function NewIndex(ins: seq<Patch>, k: nat): nat {
    k + Above(ins, k + 1)
  }

  function Moved(ins: seq<Patch>, b: Block): Block {
    Block(NewIndex(ins, b.open), NewIndex(ins, b.close), b.lang, b.body)
  }

  function MovedAll(ins: seq<Patch>, bs: seq<Block>): seq<Block> {
    if bs == [] then [] else [Moved(ins, bs[0])] + MovedAll(ins, bs[1..])
  }

  predicate Marks(ins: seq<Patch>, k: nat) {
    exists i | 0 <= i < |ins| :: ins[i].open == k
  }

  predicate Within(ins: seq<Patch>, lo: nat, hi: nat) {
    Ascends(ins) && forall i | 0 <= i < |ins| :: lo <= ins[i].open < hi
  }

  lemma {:induction false} AboveNone(ins: seq<Patch>, k: nat)
    requires forall i | 0 <= i < |ins| :: k <= ins[i].open
    ensures Above(ins, k) == 0
  {
    if ins != [] {
      AboveNone(ins[1..], k);
    }
  }

  /** No line but line k gets anything right above it. */
  lemma {:induction false} DepthNone(ins: seq<Patch>, k: nat)
    requires !Marks(ins, k)
    ensures Depth(ins, k) == 0
  {
    if ins != [] {
      assert ins[0].open != k;
      MarksTail(ins, k);
      DepthNone(ins[1..], k);
    }
  }

  lemma {:induction false} DepthAt(ins: seq<Patch>, i: nat)
    requires Ascends(ins) && i < |ins|
    ensures Depth(ins, ins[i].open) == |ins[i].lines|
  {
    if i > 0 {
      assert ins[1..][i - 1] == ins[i];
      DepthAt(ins[1..], i - 1);
    }
  }

  lemma {:induction false} AboveStep(ins: seq<Patch>, k: nat)
    requires Ascends(ins)
    ensures Above(ins, k + 1) == Above(ins, k) + Depth(ins, k)
  {
    if ins != [] {
      AboveStep(ins[1..], k);
      if ins[0].open == k {
        AboveNone(ins[1..], k + 1);
        AboveNone(ins[1..], k);
      }
    }
  }

  lemma MarksTail(ins: seq<Patch>, k: nat)
    requires ins != [] && ins[0].open != k
    ensures Marks(ins, k) <==> Marks(ins[1..], k)
  {
    if Marks(ins, k) {
      var i :| 0 <= i < |ins| && ins[i].open == k;
      assert ins[1..][i - 1].open == k;
    }
    if Marks(ins[1..], k) {
      var i :| 0 <= i < |ins[1..]| && ins[1..][i].open == k;
      assert ins[i + 1].open == k;
    }
  }

  function RestOf(ins: seq<Patch>, k: nat): seq<Patch> {
    if ins != [] && ins[0].open == k then ins[1..] else ins
  }

  /** What goes right above line k, which is the first that may get anything. */
  function Top(ins: seq<Patch>, k: nat): seq<string> {
    if ins != [] && ins[0].open == k then ins[0].lines else []
  }

  lemma RestWithin(ins: seq<Patch>, k: nat, hi: nat)
    requires Within(ins, k, hi)
    ensures Within(RestOf(ins, k), k + 1, hi)
    ensures Above(ins, k + 1) == |Top(ins, k)|
  {
    AboveNone(RestOf(ins, k), k + 1);
  }

  lemma NewIndexRest(ins: seq<Patch>, k: nat, l: nat, hi: nat)
    requires Within(ins, k, hi) && k < l
    ensures NewIndex(ins, l) == NewIndex(RestOf(ins, k), l) + |Top(ins, k)|
  {
    RestWithin(ins, k, hi);
  }

  lemma {:induction false} AboveRest(ins: seq<Patch>, k: nat, hi: nat)
    requires Within(ins, k, hi) && k < hi
    ensures Above(ins, hi) == Above(RestOf(ins, k), hi) + |Top(ins, k)|
  {
  }

  lemma {:induction false} InterleaveLength(lines: seq<string>, k: nat, ins: seq<Patch>)
    requires k <= |lines| && Within(ins, k, |lines|)
    ensures |Interleave(lines, k, ins)| == |lines| - k + Above(ins, |lines|)
    decreases |lines| - k
  {
    if k < |lines| {
      RestWithin(ins, k, |lines|);
      AboveRest(ins, k, |lines|);
      InterleaveLength(lines, k + 1, RestOf(ins, k));
    } else {
      AboveNone(ins, |lines|);
    }
  }

  lemma InterleaveStep(lines: seq<string>, k: nat, ins: seq<Patch>)
    requires k < |lines|
    ensures Interleave(lines, k, ins) == Top(ins, k) + [lines[k]] + Interleave(lines, k + 1, RestOf(ins, k))
  {
  }

  lemma ThirdPart<T>(a: seq<T>, x: T, b: seq<T>, i: nat)
    ensures (a + [x] + b)[|a|] == x
    ensures i < |b| ==> (a + [x] + b)[|a| + 1 + i] == b[i]
  {
  }

  predicate KeepsLine(lines: seq<string>, from: nat, ins: seq<Patch>, k: nat)
    requires from <= k < |lines|
  {
    && NewIndex(ins, k) - from < |Interleave(lines, from, ins)|
    && Interleave(lines, from, ins)[NewIndex(ins, k) - from] == lines[k]
  }

  lemma KeepsFirst(lines: seq<string>, k: nat, ins: seq<Patch>)
    requires k < |lines| && Within(ins, k, |lines|)
    ensures KeepsLine(lines, k, ins, k)
  {
    InterleaveStep(lines, k, ins);
    RestWithin(ins, k, |lines|);
    ThirdPart(Top(ins, k), lines[k], Interleave(lines, k + 1, RestOf(ins, k)), 0);
  }

  lemma KeepsLater(lines: seq<string>, from: nat, ins: seq<Patch>, k: nat)
    requires from < k < |lines| && Within(ins, from, |lines|)
    requires KeepsLine(lines, from + 1, RestOf(ins, from), k)
    ensures KeepsLine(lines, from, ins, k)
  {
    var rest := Interleave(lines, from + 1, RestOf(ins, from));
    var i := NewIndex(RestOf(ins, from), k) - from - 1;
    NewIndexRest(ins, from, k, |lines|);
    assert NewIndex(ins, k) - from == |Top(ins, from)| + 1 + i;
    InterleaveStep(lines, from, ins);
    ThirdPart(Top(ins, from), lines[from], rest, i);
  }

  /** Every original line is still there, at its new index. */
  lemma {:induction false} InterleaveKeeps(lines: seq<string>, from: nat, ins: seq<Patch>, k: nat)
    requires from <= k < |lines| && Within(ins, from, |lines|)
    ensures KeepsLine(lines, from, ins, k)
    decreases |lines| - from
  {
    if from == k {
      KeepsFirst(lines, k, ins);
    } else {
      RestWithin(ins, from, |lines|);
      InterleaveKeeps(lines, from + 1, RestOf(ins, from), k);
      KeepsLater(lines, from, ins, k);
    }
  }

  /** The lines of out from at on begin with those of part. */
  predicate Holds(out: seq<string>, at: int, part: seq<string>) {
    0 <= at && at + |part| <= |out| && out[at..at + |part|] == part
  }

  lemma HoldsLater(a: seq<string>, b: seq<string>, at: int, part: seq<string>)
    requires Holds(b, at, part)
    ensures Holds(a + b, |a| + at, part)
  {
    assert (a + b)[|a| + at..|a| + at + |part|] == b[at..at + |part|];
  }

  /** The place of patch i in the lines from line `from` on. */
  function PatchAt(ins: seq<Patch>, i: nat, from: nat): int
    requires i < |ins|
  {
    NewIndex(ins, ins[i].open) - |ins[i].lines| - from
  }

  predicate PatchHeld(lines: seq<string>, from: nat, ins: seq<Patch>, i: nat)
    requires from <= |lines| && i < |ins|
  {
    Holds(Interleave(lines, from, ins), PatchAt(ins, i, from), ins[i].lines)
  }

  lemma MarksFirst(lines: seq<string>, from: nat, ins: seq<Patch>)
    requires from < |lines| && Within(ins, from, |lines|) && ins != [] && ins[0].open == from
    ensures PatchHeld(lines, from, ins, 0)
  {
    RestWithin(ins, from, |lines|);
    var rest := [lines[from]] + Interleave(lines, from + 1, ins[1..]);
    assert Interleave(lines, from, ins) == ins[0].lines + rest;
    assert (ins[0].lines + rest)[0..|ins[0].lines|] == ins[0].lines;
  }

  lemma FirstMarks(ins: seq<Patch>, i: nat, k: nat, hi: nat)
    requires Within(ins, k, hi) && i < |ins| && ins[i].open == k
    ensures i == 0 && ins[0].open == k
  {
  }

  lemma MarksLater(lines: seq<string>, from: nat, ins: seq<Patch>, i: nat, j: nat)
    requires from < |lines| && Within(ins, from, |lines|) && i < |ins| && ins[i].open > from
    requires j < |RestOf(ins, from)| && RestOf(ins, from)[j] == ins[i]
    requires PatchHeld(lines, from + 1, RestOf(ins, from), j)
    ensures PatchHeld(lines, from, ins, i)
  {
    var rest := RestOf(ins, from);
    InterleaveStep(lines, from, ins);
    NewIndexRest(ins, from, ins[i].open, |lines|);
    HoldsLater(Top(ins, from) + [lines[from]], Interleave(lines, from + 1, rest), PatchAt(rest, j, from + 1), ins[i].lines);
  }

  lemma RestIndex(ins: seq<Patch>, k: nat, i: nat) returns (j: nat)
    requires i < |ins| && ins[i].open != k
    ensures j < |RestOf(ins, k)| && RestOf(ins, k)[j] == ins[i]
  {
    j := if ins[0].open == k then i - 1 else i;
  }

  /** Right above its line stands every patch. */
  lemma {:induction false} InterleaveMarks(lines: seq<string>, from: nat, ins: seq<Patch>, i: nat)
    requires from <= |lines| && Within(ins, from, |lines|) && i < |ins|
    ensures PatchHeld(lines, from, ins, i)
    decreases |lines| - from
  {
    if ins[i].open == from {
      FirstMarks(ins, i, from, |lines|);
      MarksFirst(lines, from, ins);
    } else {
      RestWithin(ins, from, |lines|);
      var j := RestIndex(ins, from, i);
      InterleaveMarks(lines, from + 1, RestOf(ins, from), j);
      MarksLater(lines, from, ins, i, j);
    }
  }

  function Deleted(lines: seq<string>, k: nat, n: nat): seq<string>
    requires k + n <= |lines|
  {
    lines[..k] + lines[k + n..]
  }

  /** Deleting the lines now at each insertion point, first to last. */
  function Undo(out: seq<string>, ins: seq<Patch>): seq<string>
    decreases |ins|
  {
    if ins == [] then out
    else if ins[0].open + |ins[0].lines| <= |out| then Undo(Deleted(out, ins[0].open, |ins[0].lines|), ins[1..])
    else out
  }

  lemma DeletedMiddle(a: seq<string>, b: seq<string>, c: seq<string>)
    ensures Deleted(a + b + c, |a|, |b|) == a + c
  {
  }

  lemma Regrouped(a: seq<string>, b: seq<string>, c: seq<string>, d: seq<string>)
    ensures a + (b + c + d) == a + b + (c + d)
    ensures a + c + d == a + (c + d)
  {
  }

  /** The first patch stands between the lines above it and the rest. */
  lemma FirstPatch(lines: seq<string>, x: Patch, rest: seq<Patch>)
    requires x.open < |lines|
    ensures Interleave(lines, 0, [x] + rest)
         == lines[..x.open] + x.lines + ([lines[x.open]] + Interleave(lines, x.open + 1, rest))
  {
    InterleaveSkips(lines, 0, x.open, [x] + rest);
    InterleaveHead(lines, x, rest);
    Regrouped(lines[0..x.open], x.lines, [lines[x.open]], Interleave(lines, x.open + 1, rest));
  }

  lemma WithoutFirst(lines: seq<string>, o: nat, rest: seq<Patch>)
    requires o < |lines| && (rest == [] || o < rest[0].open)
    ensures Interleave(lines, 0, rest) == lines[..o] + ([lines[o]] + Interleave(lines, o + 1, rest))
  {
    InterleaveSkips(lines, 0, o + 1, rest);
    assert lines[0..o + 1] == lines[..o] + [lines[o]];
    Regrouped(lines[..o], [], [lines[o]], Interleave(lines, o + 1, rest));
  }

  lemma {:induction false} UndoInterleave(lines: seq<string>, ins: seq<Patch>)
    requires Within(ins, 0, |lines|)
    ensures Undo(Interleave(lines, 0, ins), ins) == lines
    decreases |ins|
  {
    if ins == [] {
      InterleaveSkips(lines, 0, |lines|, []);
    } else {
      var x, rest := ins[0], ins[1..];
      assert ins == [x] + rest;
      FirstPatch(lines, x, rest);
      WithoutFirst(lines, x.open, rest);
      DeletedMiddle(lines[..x.open], x.lines, [lines[x.open]] + Interleave(lines, x.open + 1, rest));
      UndoInterleave(lines, rest);
    }
  }

  // ----- the fences of the marked document ---------------------------------------------------

  /** The lines are inserted above fences the scanner still has ahead of it. */
  predicate OnBlocks(ins: seq<Patch>, k: nat, bs: seq<Block>) {
    forall i | 0 <= i < |ins| && k <= ins[i].open :: Opens(bs, ins[i].open)
  }

  /** No line that is inserted opens a fence. */
  predicate Inert(ins: seq<Patch>) {
    forall i | 0 <= i < |ins| :: NoneOpens(ins[i].lines)
  }

  predicate NoneOpens(lines: seq<string>) {
    forall i | 0 <= i < |lines| :: !IsOpen(lines[i])
  }

  /** What is known of a merge: each line's new place, and the inserted lines above each marked line. */
  predicate Merged(lines: seq<string>, ins: seq<Patch>, out: seq<string>) {
    && Within(ins, 0, |lines|) && Inert(ins)
    && |out| == |lines| + Above(ins, |lines|)
    && (forall k | 0 <= k < |lines| :: NewIndex(ins, k) < |out| && out[NewIndex(ins, k)] == lines[k])
    && (forall i | 0 <= i < |ins| :: PatchAbove(ins, out, i))
  }

  predicate PatchAbove(ins: seq<Patch>, out: seq<string>, i: nat)
    requires i < |ins|
  {
    Holds(out, PatchAt(ins, i, 0), ins[i].lines)
  }

  lemma InterleaveIsMerged(lines: seq<string>, ins: seq<Patch>)
    requires Within(ins, 0, |lines|) && Inert(ins)
    ensures Merged(lines, ins, Interleave(lines, 0, ins))
  {
    var out := Interleave(lines, 0, ins);
    InterleaveLength(lines, 0, ins);
    forall k | 0 <= k < |lines| ensures NewIndex(ins, k) < |out| && out[NewIndex(ins, k)] == lines[k] {
      InterleaveKeeps(lines, 0, ins, k);
    }
    forall i | 0 <= i < |ins| ensures PatchAbove(ins, out, i) {
      InterleaveMarks(lines, 0, ins, i);
    }
  }

  /** Where the scan of the output stands when the scan of the input reaches line k. */
  function Reached(ins: seq<Patch>, k: nat): nat {
    k + Above(ins, k)
  }

  function MovedMode(ins: seq<Patch>, mode: Mode): Mode {
    if mode.Inside? then Inside(NewIndex(ins, mode.open)) else Outside
  }

  /** Between Reached(k) and Reached(k + 1) the output holds line k, under what is inserted above it. */
  lemma OneLine(lines: seq<string>, ins: seq<Patch>, out: seq<string>, k: nat)
    requires Merged(lines, ins, out) && k < |lines|
    ensures Reached(ins, k + 1) == NewIndex(ins, k) + 1 <= |out|
    ensures out[NewIndex(ins, k)] == lines[k]
    ensures NewIndex(ins, k) == Reached(ins, k) + Depth(ins, k)
    ensures !Marks(ins, k) ==> NewIndex(ins, k) == Reached(ins, k)
    ensures NoneOpens(out[Reached(ins, k)..NewIndex(ins, k)])
  {
    AboveStep(ins, k);
    assert NewIndex(ins, k) < |out|;
    if Marks(ins, k) {
      var i :| 0 <= i < |ins| && ins[i].open == k;
      DepthAt(ins, i);
      assert PatchAbove(ins, out, i);
    } else {
      DepthNone(ins, k);
    }
  }

  lemma {:induction false} BlocksLie(lines: seq<string>, k: nat, mode: Mode)
    requires ModeOk(lines, k, mode)
    ensures forall i | 0 <= i < |Scan(lines, k, mode)| ::
              var o := Scan(lines, k, mode)[i].open;
              o < |lines| && IsOpen(lines[o]) && (k <= o || (mode.Inside? && o == mode.open))
    ensures mode.Inside? ==> !Opens(Scan(lines, k, mode), k)
    decreases |lines| - k
  {
    if k < |lines| {
      if mode == Outside {
        BlocksLie(lines, k + 1, if IsOpen(lines[k]) then Inside(k) else Outside);
      } else if IsClose(lines[k]) {
        BlocksLie(lines, k + 1, Outside);
      } else {
        BlocksLie(lines, k + 1, mode);
      }
    }
  }

  predicate Unmarked(ins: seq<Patch>, lo: nat, hi: nat) {
    forall k | lo <= k < hi :: !Marks(ins, k)
  }

  lemma {:induction false} SameShift(ins: seq<Patch>, lo: nat, hi: nat)
    requires Ascends(ins) && lo <= hi && Unmarked(ins, lo, hi)
    ensures Above(ins, hi) == Above(ins, lo)
    decreases hi
  {
    if lo < hi {
      SameShift(ins, lo, hi - 1);
      AboveStep(ins, hi - 1);
      DepthNone(ins, hi - 1);
    }
  }

  /** A block without markers inside keeps its body. */
  lemma BodyKept(lines: seq<string>, ins: seq<Patch>, out: seq<string>, o: nat, c: nat)
    requires Merged(lines, ins, out) && o < c < |lines| && Unmarked(ins, o + 1, c + 1)
    ensures NewIndex(ins, o) < NewIndex(ins, c) < |out|
    ensures out[NewIndex(ins, o) + 1..NewIndex(ins, c)] == lines[o + 1..c]
  {
    SameShift(ins, o + 1, c + 1);
    assert NewIndex(ins, c) < |out|;
    var d := Above(ins, o + 1);
    forall i | o + 1 <= i < c ensures out[i + d] == lines[i] {
      SameShift(ins, o + 1, i + 1);
      assert out[NewIndex(ins, i)] == lines[i];
    }
    assert out[o + 1 + d..c + d] == lines[o + 1..c];
  }

  lemma NotMarkedInside(ins: seq<Patch>, k: nat, bs: seq<Block>)
    requires OnBlocks(ins, k, bs) && !Opens(bs, k)
    ensures !Marks(ins, k)
  {
  }

  lemma MovedModeOk(lines: seq<string>, ins: seq<Patch>, out: seq<string>, k: nat, o: nat)
    requires Merged(lines, ins, out) && o < k <= |lines| && IsOpen(lines[o]) && Unmarked(ins, o + 1, k)
    ensures ModeOk(out, Reached(ins, k), Inside(NewIndex(ins, o)))
  {
    SameShift(ins, o + 1, k);
    assert out[NewIndex(ins, o)] == lines[o];
    OneLine(lines, ins, out, k - 1);
  }

  lemma {:induction false} PassLines(out: seq<string>, from: nat, to: nat)
    requires from <= to <= |out| && NoneOpens(out[from..to])
    ensures Scan(out, from, Outside) == Scan(out, to, Outside)
    decreases |out| - from
  {
    if from < to {
      assert out[from..to][0] == out[from];
      assert out[from..to][1..] == out[from + 1..to];
      PassLines(out, from + 1, to);
      OutsideStep(out, from);
    }
  }

  /** Outside a block the scanner steps over what is inserted to the line below it. */
  lemma PassPatch(lines: seq<string>, ins: seq<Patch>, out: seq<string>, k: nat)
    requires Merged(lines, ins, out) && k < |lines|
    ensures NewIndex(ins, k) < |out| && out[NewIndex(ins, k)] == lines[k]
    ensures Reached(ins, k) <= |out|
    ensures Scan(out, Reached(ins, k), Outside) == Scan(out, NewIndex(ins, k), Outside)
  {
    OneLine(lines, ins, out, k);
    PassLines(out, Reached(ins, k), NewIndex(ins, k));
  }

  lemma InsideLine(lines: seq<string>, ins: seq<Patch>, out: seq<string>, k: nat, o: nat)
    requires Merged(lines, ins, out) && o < k < |lines| && IsOpen(lines[o]) && Unmarked(ins, o + 1, k + 1)
    ensures ModeOk(out, Reached(ins, k), Inside(NewIndex(ins, o)))
    ensures ModeOk(out, Reached(ins, k + 1), Inside(NewIndex(ins, o)))
    ensures Reached(ins, k) == NewIndex(ins, k) && Reached(ins, k + 1) == Reached(ins, k) + 1 <= |out|
    ensures out[Reached(ins, k)] == lines[k] && out[NewIndex(ins, o)] == lines[o]
  {
    MovedModeOk(lines, ins, out, k, o);
    OneLine(lines, ins, out, k);
    OneLine(lines, ins, out, o);
  }

  lemma MovedCons(ins: seq<Patch>, b: Block, bs: seq<Block>)
    ensures MovedAll(ins, [b] + bs) == [Moved(ins, b)] + MovedAll(ins, bs)
  {
    assert ([b] + bs)[1..] == bs;
  }

  lemma ClosedMoves(lines: seq<string>, ins: seq<Patch>, out: seq<string>, o: nat, c: nat)
    requires Merged(lines, ins, out) && o < c < |lines| && IsOpen(lines[o]) && Unmarked(ins, o + 1, c + 1)
    requires NewIndex(ins, o) < NewIndex(ins, c) < |out| && out[NewIndex(ins, o)] == lines[o]
    ensures Moved(ins, Closed(lines, o, c)) == Closed(out, NewIndex(ins, o), NewIndex(ins, c))
  {
    BodyKept(lines, ins, out, o, c);
  }

  lemma CloseMoves(lines: seq<string>, ins: seq<Patch>, out: seq<string>, k: nat, o: nat)
    requires Merged(lines, ins, out) && o < k < |lines| && IsOpen(lines[o]) && Unmarked(ins, o + 1, k + 1)
    requires IsClose(lines[k]) && Reached(ins, k + 1) <= |out|
    requires Scan(out, Reached(ins, k + 1), Outside) == MovedAll(ins, Scan(lines, k + 1, Outside))
    ensures ModeOk(out, Reached(ins, k), Inside(NewIndex(ins, o)))
    ensures Scan(out, Reached(ins, k), Inside(NewIndex(ins, o))) == MovedAll(ins, Scan(lines, k, Inside(o)))
  {
    CloseStep(lines, k, o);
    OutCloses(lines, ins, out, k, o);
    MovedCons(ins, Closed(lines, o, k), Scan(lines, k + 1, Outside));
  }

  lemma OutCloses(lines: seq<string>, ins: seq<Patch>, out: seq<string>, k: nat, o: nat)
    requires Merged(lines, ins, out) && o < k < |lines| && IsOpen(lines[o]) && Unmarked(ins, o + 1, k + 1) && IsClose(lines[k])
    ensures ModeOk(out, Reached(ins, k), Inside(NewIndex(ins, o))) && Reached(ins, k + 1) <= |out|
    ensures Scan(out, Reached(ins, k), Inside(NewIndex(ins, o)))
         == [Moved(ins, Closed(lines, o, k))] + Scan(out, Reached(ins, k + 1), Outside)
  {
    InsideLine(lines, ins, out, k, o);
    ClosedMoves(lines, ins, out, o, k);
    ClosesAt(out, Reached(ins, k), NewIndex(ins, o), Moved(ins, Closed(lines, o, k)));
  }

  lemma ClosesAt(out: seq<string>, k: nat, o: nat, b: Block)
    requires o < k < |out| && IsOpen(out[o]) && IsClose(out[k]) && Closed(out, o, k) == b
    ensures Scan(out, k, Inside(o)) == [b] + Scan(out, k + 1, Outside)
  {
    CloseStep(out, k, o);
  }

  function Closed(lines: seq<string>, o: nat, k: nat): Block
    requires o < k < |lines| && IsOpen(lines[o])
  {
    Block(o, k, OpenLang(lines[o]).value, Join(lines[o + 1..k]))
  }

  lemma CloseStep(lines: seq<string>, k: nat, o: nat)
    requires o < k < |lines| && IsOpen(lines[o]) && IsClose(lines[k])
    ensures Scan(lines, k, Inside(o)) == [Closed(lines, o, k)] + Scan(lines, k + 1, Outside)
  {
  }

  lemma InsideMoves(lines: seq<string>, ins: seq<Patch>, out: seq<string>, k: nat, o: nat)
    requires Merged(lines, ins, out) && o < k < |lines| && IsOpen(lines[o]) && Unmarked(ins, o + 1, k + 1)
    requires !IsClose(lines[k])
    ensures ModeOk(out, Reached(ins, k), Inside(NewIndex(ins, o)))
    ensures ModeOk(out, Reached(ins, k + 1), Inside(NewIndex(ins, o)))
    ensures Scan(out, Reached(ins, k), Inside(NewIndex(ins, o)))
         == Scan(out, Reached(ins, k + 1), Inside(NewIndex(ins, o)))
  {
    InsideLine(lines, ins, out, k, o);
  }

  lemma OutsideStep(lines: seq<string>, k: nat)
    requires k < |lines|
    ensures Scan(lines, k, Outside) == Scan(lines, k + 1, if IsOpen(lines[k]) then Inside(k) else Outside)
  {
  }

  lemma InsideStep(lines: seq<string>, k: nat, o: nat)
    requires o < k < |lines| && IsOpen(lines[o]) && !IsClose(lines[k])
    ensures Scan(lines, k, Inside(o)) == Scan(lines, k + 1, Inside(o))
  {
  }

  /** Scanning the output from where line k is reached finds the moved blocks of a scan from line k. */
  predicate Follows(lines: seq<string>, ins: seq<Patch>, out: seq<string>, k: nat, mode: Mode)
    requires ModeOk(lines, k, mode)
  {
    && ModeOk(out, Reached(ins, k), MovedMode(ins, mode))
    && Scan(out, Reached(ins, k), MovedMode(ins, mode)) == MovedAll(ins, Scan(lines, k, mode))
  }

  lemma EndFollows(lines: seq<string>, ins: seq<Patch>, out: seq<string>, mode: Mode)
    requires Merged(lines, ins, out) && ModeOk(lines, |lines|, mode)
    requires mode.Inside? ==> Unmarked(ins, mode.open + 1, |lines|)
    ensures Follows(lines, ins, out, |lines|, mode)
  {
    if mode.Inside? {
      MovedModeOk(lines, ins, out, |lines|, mode.open);
    }
  }

  lemma OutsideFollows(lines: seq<string>, ins: seq<Patch>, out: seq<string>, k: nat)
    requires Merged(lines, ins, out) && k < |lines|
    requires Follows(lines, ins, out, k + 1, if IsOpen(lines[k]) then Inside(k) else Outside)
    ensures Follows(lines, ins, out, k, Outside)
  {
    PassPatch(lines, ins, out, k);
    OneLine(lines, ins, out, k);
    OutsideStep(out, NewIndex(ins, k));
    OutsideStep(lines, k);
  }

  lemma InsideFollows(lines: seq<string>, ins: seq<Patch>, out: seq<string>, k: nat, o: nat)
    requires Merged(lines, ins, out) && o < k < |lines| && IsOpen(lines[o]) && Unmarked(ins, o + 1, k + 1)
    requires !IsClose(lines[k]) && Follows(lines, ins, out, k + 1, Inside(o))
    ensures Follows(lines, ins, out, k, Inside(o))
  {
    InsideMoves(lines, ins, out, k, o);
    InsideStep(lines, k, o);
  }

  lemma CloseFollows(lines: seq<string>, ins: seq<Patch>, out: seq<string>, k: nat, o: nat)
    requires Merged(lines, ins, out) && o < k < |lines| && IsOpen(lines[o]) && Unmarked(ins, o + 1, k + 1)
    requires IsClose(lines[k]) && Follows(lines, ins, out, k + 1, Outside)
    ensures Follows(lines, ins, out, k, Inside(o))
  {
    CloseMoves(lines, ins, out, k, o);
  }

  lemma NotMarkedAt(lines: seq<string>, ins: seq<Patch>, k: nat, o: nat)
    requires o < k < |lines| && IsOpen(lines[o]) && Unmarked(ins, o + 1, k)
    requires OnBlocks(ins, k, Scan(lines, k, Inside(o)))
    ensures Unmarked(ins, o + 1, k + 1)
  {
    BlocksLie(lines, k, Inside(o));
    NotMarkedInside(ins, k, Scan(lines, k, Inside(o)));
  }

  lemma StillAhead(lines: seq<string>, ins: seq<Patch>, k: nat, o: nat)
    requires o < k < |lines| && IsOpen(lines[o]) && IsClose(lines[k])
    requires OnBlocks(ins, k, Scan(lines, k, Inside(o)))
    ensures OnBlocks(ins, k + 1, Scan(lines, k + 1, Outside))
  {
    var bs, rest := Scan(lines, k, Inside(o)), Scan(lines, k + 1, Outside);
    forall i | 0 <= i < |ins| && k + 1 <= ins[i].open ensures Opens(rest, ins[i].open) {
      var j :| 0 <= j < |bs| && bs[j].open == ins[i].open;
      assert rest[j - 1] == bs[j];
    }
  }

  /** Markers below line k go to blocks still to be found, and none has gone into the block that is open. */
  predicate Due(lines: seq<string>, ins: seq<Patch>, k: nat, mode: Mode)
    requires ModeOk(lines, k, mode)
  {
    OnBlocks(ins, k, Scan(lines, k, mode)) && (mode.Inside? ==> Unmarked(ins, mode.open + 1, k))
  }

  /** The scanner's mode after line k. */
  function NextMode(lines: seq<string>, k: nat, mode: Mode): Mode
    requires k < |lines|
  {
    if mode == Outside then if IsOpen(lines[k]) then Inside(k) else Outside
    else if IsClose(lines[k]) then Outside
    else mode
  }

  lemma StillDue(lines: seq<string>, ins: seq<Patch>, k: nat, mode: Mode)
    requires k < |lines| && ModeOk(lines, k, mode) && Due(lines, ins, k, mode)
    ensures ModeOk(lines, k + 1, NextMode(lines, k, mode)) && Due(lines, ins, k + 1, NextMode(lines, k, mode))
    ensures mode.Inside? ==> Unmarked(ins, mode.open + 1, k + 1)
  {
    if mode == Outside {
      OutsideStep(lines, k);
    } else {
      NotMarkedAt(lines, ins, k, mode.open);
      if IsClose(lines[k]) {
        StillAhead(lines, ins, k, mode.open);
      } else {
        InsideStep(lines, k, mode.open);
      }
    }
  }

  lemma LineFollows(lines: seq<string>, ins: seq<Patch>, out: seq<string>, k: nat, mode: Mode)
    requires Merged(lines, ins, out) && k < |lines| && ModeOk(lines, k, mode)
    requires mode.Inside? ==> Unmarked(ins, mode.open + 1, k + 1)
    requires ModeOk(lines, k + 1, NextMode(lines, k, mode)) && Follows(lines, ins, out, k + 1, NextMode(lines, k, mode))
    ensures Follows(lines, ins, out, k, mode)
  {
    if mode == Outside {
      OutsideFollows(lines, ins, out, k);
    } else if IsClose(lines[k]) {
      CloseFollows(lines, ins, out, k, mode.open);
    } else {
      InsideFollows(lines, ins, out, k, mode.open);
    }
  }

  lemma {:induction false} ScanMoves(lines: seq<string>, ins: seq<Patch>, out: seq<string>, k: nat, mode: Mode)
    requires Merged(lines, ins, out) && ModeOk(lines, k, mode) && Due(lines, ins, k, mode)
    ensures Follows(lines, ins, out, k, mode)
    decreases |lines| - k
  {
    if k == |lines| {
      EndFollows(lines, ins, out, mode);
    } else {
      StillDue(lines, ins, k, mode);
      ScanMoves(lines, ins, out, k + 1, NextMode(lines, k, mode));
      LineFollows(lines, ins, out, k, mode);
    }
  }

  /** Inserting lines that open no fence above fences preserves the parse: the same blocks in the same order, with the same
      language and body, each line index shifted by the number of lines inserted at or before it. */
  lemma BlocksMove(lines: seq<string>, ins: seq<Patch>)
    requires Within(ins, 0, |lines|) && Inert(ins) && forall i | 0 <= i < |ins| :: Opens(Blocks(lines), ins[i].open)
    ensures Blocks(Interleave(lines, 0, ins)) == MovedAll(ins, Blocks(lines))
  {
    InterleaveIsMerged(lines, ins);
    AboveNone(ins, 0);
    ScanMoves(lines, ins, Interleave(lines, 0, ins), 0, Outside);
  }

  // ----- markers of the marked document ------------------------------------------------------

  /** A fence with no new marker is tagged in the output exactly when it was in the input. */
  lemma {:induction false} TaggedKept(lines: seq<string>, ins: seq<Patch>, out: seq<string>, o: nat)
    requires Merged(lines, ins, out) && o <= |lines|
    requires forall i | 0 <= i < |ins| :: IsOpen(lines[ins[i].open])
    ensures Tagged(out, Reached(ins, o)) == Tagged(lines, o)
    decreases o
  {
    if o == 0 {
      AboveNone(ins, 0);
    } else {
      OneLine(lines, ins, out, o - 1);
      if IsBlankLine(lines[o - 1]) {
        if Marks(ins, o - 1) {
          OpenIsNotBlank(lines[o - 1]);
        }
        TaggedKept(lines, ins, out, o - 1);
      }
    }
  }

  /** A fence that got lines above it is tagged in the output exactly when the last of them is a marker. */
  lemma TaggedNew(lines: seq<string>, ins: seq<Patch>, out: seq<string>, i: nat)
    requires Merged(lines, ins, out) && i < |ins| && ins[i].lines != [] && !IsBlankLine(ins[i].lines[|ins[i].lines| - 1])
    ensures Tagged(out, NewIndex(ins, ins[i].open)) <==> IsMarker(ins[i].lines[|ins[i].lines| - 1])
  {
    assert PatchAbove(ins, out, i);
    var at, n := NewIndex(ins, ins[i].open), |ins[i].lines|;
    assert NewIndex(ins, ins[i].open) < |out|;
    assert out[at - 1] == out[at - n..at][n - 1];
  }
}
