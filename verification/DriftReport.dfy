/** The drift report line by line. */
module DriftReport {
  import opened Values
  import opened KeyOrder
  import opened Diffing
  import opened Drift

  // ----- missing and extra blocks ------------------------------------------------------------

  lemma InAppend<T>(xs: seq<T>, ys: seq<T>, x: T)
    ensures x in xs + ys <==> x in xs || x in ys
  {
  }

  lemma NameListed(names: seq<string>, n: string)
    ensures MissingBlock(n) in MissingLines(names) <==> n in names
    ensures ExtraBlock(n) in ExtraLines(names) <==> n in names
  {
    if n in names {
      var i :| 0 <= i < |names| && names[i] == n;
      assert MissingLines(names)[i] == MissingBlock(n) && ExtraLines(names)[i] == ExtraBlock(n);
    }
  }

  /** What is about differing blocks: no line there names a missing or extra one. */
  predicate OnlyMismatches(lines: seq<Line>) {
    forall i | 0 <= i < |lines| :: lines[i].Mismatch? || lines[i].DetailLine? || lines[i].MoreLines?
  }

  lemma BlockOnly(n: string, ds: seq<Diff>)
    ensures OnlyMismatches(BlockLines(n, ds))
  {
  }

  lemma OnlyJoin(xs: seq<Line>, ys: seq<Line>)
    requires OnlyMismatches(xs) && OnlyMismatches(ys)
    ensures OnlyMismatches(xs + ys)
  {
  }

  lemma {:induction false} MismatchesOnly(manifest: map<string, Value>, spec: map<string, Value>, names: seq<string>)
    requires AreShared(manifest, spec, names)
    ensures OnlyMismatches(MismatchLines(manifest, spec, names))
    decreases |names|
  {
    if names != [] {
      var last := |names| - 1;
      var ds := DiffPaths(manifest[names[last]], spec[names[last]], []);
      MismatchStep(manifest, spec, names);
      MismatchesOnly(manifest, spec, names[..last]);
      BlockOnly(names[last], ds);
      OnlyJoin(MismatchLines(manifest, spec, names[..last]), BlockLines(names[last], ds));
    }
  }

  /** A block is reported missing exactly when only the manifest has it, and extra exactly when only the specification has. */
  lemma MissingAndExtra(manifest: map<string, Value>, spec: map<string, Value>, n: string)
    ensures MissingBlock(n) in Report(manifest, spec) <==> n in manifest && n !in spec
    ensures ExtraBlock(n) in Report(manifest, spec) <==> n in spec && n !in manifest
  {
    var missing, extra := SortedKeys(manifest.Keys - spec.Keys), SortedKeys(spec.Keys - manifest.Keys);
    var lines := MismatchLines(manifest, spec, SortedKeys(manifest.Keys * spec.Keys));
    NameListed(missing, n);
    NameListed(extra, n);
    MismatchesOnly(manifest, spec, SortedKeys(manifest.Keys * spec.Keys));
    InAppend(MissingLines(missing) + ExtraLines(extra), lines, MissingBlock(n));
    InAppend(MissingLines(missing) + ExtraLines(extra), lines, ExtraBlock(n));
    InAppend(MissingLines(missing), ExtraLines(extra), MissingBlock(n));
    InAppend(MissingLines(missing), ExtraLines(extra), ExtraBlock(n));
  }

  // ----- the sections about differing blocks -------------------------------------------------

  /** How many lines follow the heading of a section. */
  function Shown(ds: seq<Diff>): nat {
    if |ds| <= 40 then |ds| else 41
  }

  /** The section at line i: a heading with the number of differences, the first 40 of them, how many more there are, and
      then the next section or the end. */
  predicate SectionAt(lines: seq<Line>, i: nat, n: string, ds: seq<Diff>) {
    && i + Shown(ds) < |lines| && ds != [] && lines[i] == Mismatch(n, |ds|)
    && (forall j: nat | j < |ds| && j < 40 :: lines[i + 1 + j] == DetailLine(ds[j]))
    && (|ds| > 40 ==> lines[i + 41] == MoreLines(|ds| - 40))
    && (i + Shown(ds) + 1 < |lines| ==> lines[i + Shown(ds) + 1].Mismatch?)
  }

  lemma BlockSection(n: string, ds: seq<Diff>)
    requires ds != []
    ensures SectionAt(BlockLines(n, ds), 0, n, ds)
    ensures forall i | 0 < i < |BlockLines(n, ds)| :: !BlockLines(n, ds)[i].Mismatch?
  {
  }

  /** Line i, if it is a heading, names a block both sides have, and starts a section with its differences. */
  ghost predicate HeadedAt(manifest: map<string, Value>, spec: map<string, Value>, lines: seq<Line>, i: nat)
    requires i < |lines|
  {
    lines[i].Mismatch? ==>
      var n := lines[i].name;
      n in manifest && n in spec && SectionAt(lines, i, n, DiffPaths(manifest[n], spec[n], []))
  }

  ghost predicate Sectioned(manifest: map<string, Value>, spec: map<string, Value>, lines: seq<Line>) {
    forall i | 0 <= i < |lines| :: HeadedAt(manifest, spec, lines, i)
  }

  predicate StartsSection(lines: seq<Line>) {
    lines != [] ==> lines[0].Mismatch?
  }

  /** Sections stay what they are when others follow, */
  lemma SectionBefore(lines: seq<Line>, after: seq<Line>, i: nat, n: string, ds: seq<Diff>)
    requires SectionAt(lines, i, n, ds) && StartsSection(after)
    ensures SectionAt(lines + after, i, n, ds)
  {
  }

  /** and when lines come before them. */
  lemma SectionAfter(before: seq<Line>, lines: seq<Line>, i: nat, n: string, ds: seq<Diff>)
    requires SectionAt(lines, i, n, ds)
    ensures SectionAt(before + lines, |before| + i, n, ds)
  {
    forall j: nat | j < |ds| && j < 40 ensures (before + lines)[|before| + i + 1 + j] == DetailLine(ds[j]) {
      assert (before + lines)[|before| + (i + 1 + j)] == lines[i + 1 + j];
    }
  }

  lemma SectionedJoin(manifest: map<string, Value>, spec: map<string, Value>, xs: seq<Line>, ys: seq<Line>)
    requires Sectioned(manifest, spec, xs) && Sectioned(manifest, spec, ys) && StartsSection(ys)
    ensures Sectioned(manifest, spec, xs + ys)
  {
    forall i | 0 <= i < |xs + ys| ensures HeadedAt(manifest, spec, xs + ys, i) {
      if i < |xs| {
        HeadedBefore(manifest, spec, xs, ys, i);
      } else {
        HeadedAfter(manifest, spec, xs, ys, i);
      }
    }
  }

  lemma HeadedBefore(manifest: map<string, Value>, spec: map<string, Value>, xs: seq<Line>, ys: seq<Line>, i: nat)
    requires i < |xs| && HeadedAt(manifest, spec, xs, i) && StartsSection(ys)
    ensures HeadedAt(manifest, spec, xs + ys, i)
  {
    if xs[i].Mismatch? {
      var n := xs[i].name;
      SectionBefore(xs, ys, i, n, DiffPaths(manifest[n], spec[n], []));
    }
  }

  lemma HeadedAfter(manifest: map<string, Value>, spec: map<string, Value>, xs: seq<Line>, ys: seq<Line>, i: nat)
    requires |xs| <= i < |xs| + |ys| && HeadedAt(manifest, spec, ys, i - |xs|)
    ensures HeadedAt(manifest, spec, xs + ys, i)
  {
    assert (xs + ys)[i] == ys[i - |xs|];
    if ys[i - |xs|].Mismatch? {
      var n := ys[i - |xs|].name;
      var ds := DiffPaths(manifest[n], spec[n], []);
      assert SectionAt(ys, i - |xs|, n, ds);
      SectionMoved(xs, ys, i, n, ds);
    }
  }

  lemma SectionMoved(xs: seq<Line>, ys: seq<Line>, i: nat, n: string, ds: seq<Diff>)
    requires i >= |xs| && SectionAt(ys, i - |xs|, n, ds)
    ensures SectionAt(xs + ys, i, n, ds)
  {
    SectionAfter(xs, ys, i - |xs|, n, ds);
  }

  lemma BlockSectioned(manifest: map<string, Value>, spec: map<string, Value>, n: string)
    requires n in manifest && n in spec
    ensures var block := BlockLines(n, DiffPaths(manifest[n], spec[n], []));
            Sectioned(manifest, spec, block) && StartsSection(block)
  {
    var ds := DiffPaths(manifest[n], spec[n], []);
    if ds != [] { BlockSection(n, ds); }
  }

  lemma {:induction false} MismatchesSectioned(manifest: map<string, Value>, spec: map<string, Value>, names: seq<string>)
    requires AreShared(manifest, spec, names)
    ensures Sectioned(manifest, spec, MismatchLines(manifest, spec, names)) && StartsSection(MismatchLines(manifest, spec, names))
    decreases |names|
  {
    if names != [] {
      var last := |names| - 1;
      MismatchStep(manifest, spec, names);
      MismatchesSectioned(manifest, spec, names[..last]);
      BlockSectioned(manifest, spec, names[last]);
      SectionedJoin(manifest, spec, MismatchLines(manifest, spec, names[..last]),
                    BlockLines(names[last], DiffPaths(manifest[names[last]], spec[names[last]], [])));
    }
  }

  /** Every heading of the report is followed by exactly the differences of the block it names. */
  lemma ReportSectioned(manifest: map<string, Value>, spec: map<string, Value>)
    ensures Sectioned(manifest, spec, Report(manifest, spec))
  {
    var missing := MissingLines(SortedKeys(manifest.Keys - spec.Keys));
    var extra := ExtraLines(SortedKeys(spec.Keys - manifest.Keys));
    var names := SortedKeys(manifest.Keys * spec.Keys);
    MismatchesSectioned(manifest, spec, names);
    assert Sectioned(manifest, spec, missing + extra);
    SectionedJoin(manifest, spec, missing + extra, MismatchLines(manifest, spec, names));
  }

  // ----- the order of the lines --------------------------------------------------------------

  function Part(l: Line): nat {
    match l
    case MissingBlock(_) => 0
    case ExtraBlock(_) => 1
    case _ => 2
  }

  function NameOf(l: Line): string
    requires l.MissingBlock? || l.ExtraBlock? || l.Mismatch?
  {
    l.name
  }

  /** Missing blocks come first, then extra ones, then differing ones, each part by Python's order of strings. */
  ghost predicate InLineOrder(k: Line, l: Line) {
    || Part(k) < Part(l)
    || (Part(k) == Part(l) && (Part(k) < 2 || (k.Mismatch? && l.Mismatch?) ==> Before(NameOf(k), NameOf(l))))
  }

  ghost predicate LinesOrdered(ls: seq<Line>) {
    forall i, j | 0 <= i < j < |ls| :: InLineOrder(ls[i], ls[j])
  }

  lemma LinesJoin(xs: seq<Line>, ys: seq<Line>)
    requires LinesOrdered(xs) && LinesOrdered(ys)
    requires forall i, j | 0 <= i < |xs| && 0 <= j < |ys| :: InLineOrder(xs[i], ys[j])
    ensures LinesOrdered(xs + ys)
  {
  }

  lemma NamesOrdered(names: seq<string>)
    requires Sorted(names)
    ensures LinesOrdered(MissingLines(names)) && LinesOrdered(ExtraLines(names))
  {
    forall i, j | 0 <= i < j < |names| ensures Before(names[i], names[j]) {
      StrLessExact(names[i], names[j]);
    }
  }

  /** Headings name only the given blocks. */
  predicate HeadsAmong(lines: seq<Line>, names: seq<string>) {
    forall i | 0 <= i < |lines| && lines[i].Mismatch? :: lines[i].name in names
  }

  lemma {:induction false} MismatchHeads(manifest: map<string, Value>, spec: map<string, Value>, names: seq<string>)
    requires AreShared(manifest, spec, names)
    ensures HeadsAmong(MismatchLines(manifest, spec, names), names)
    decreases |names|
  {
    if names != [] {
      var last := |names| - 1;
      MismatchStep(manifest, spec, names);
      MismatchHeads(manifest, spec, names[..last]);
      BlockHeads(names[last], DiffPaths(manifest[names[last]], spec[names[last]], []));
      forall n { InFront(names, n); }
    }
  }

  lemma BlockHeads(n: string, ds: seq<Diff>)
    ensures HeadsAmong(BlockLines(n, ds), [n]) && LinesOrdered(BlockLines(n, ds))
  {
    if ds != [] { BlockSection(n, ds); }
  }

  lemma HeadsJoin(xs: seq<Line>, ys: seq<Line>, names: seq<string>, n: string)
    requires LinesOrdered(xs) && LinesOrdered(ys) && OnlyMismatches(xs) && OnlyMismatches(ys)
    requires HeadsAmong(xs, names) && HeadsAmong(ys, [n]) && forall k | k in names :: Before(k, n)
    ensures LinesOrdered(xs + ys)
  {
    LinesJoin(xs, ys);
  }

  lemma {:induction false} MismatchesOrdered(manifest: map<string, Value>, spec: map<string, Value>, names: seq<string>)
    requires AreShared(manifest, spec, names) && Sorted(names)
    ensures LinesOrdered(MismatchLines(manifest, spec, names))
    decreases |names|
  {
    if names != [] {
      var last := |names| - 1;
      var ds := DiffPaths(manifest[names[last]], spec[names[last]], []);
      MismatchStep(manifest, spec, names);
      MismatchesOrdered(manifest, spec, names[..last]);
      MismatchesOnly(manifest, spec, names[..last]);
      MismatchHeads(manifest, spec, names[..last]);
      BlockHeads(names[last], ds);
      BlockOnly(names[last], ds);
      forall k | k in names[..last] ensures Before(k, names[last]) {
        var i :| 0 <= i < last && names[i] == k;
        StrLessExact(names[i], names[last]);
      }
      HeadsJoin(MismatchLines(manifest, spec, names[..last]), BlockLines(names[last], ds), names[..last], names[last]);
    }
  }

  lemma ReportOrdered(manifest: map<string, Value>, spec: map<string, Value>)
    ensures LinesOrdered(Report(manifest, spec))
  {
    var missing, extra := SortedKeys(manifest.Keys - spec.Keys), SortedKeys(spec.Keys - manifest.Keys);
    var names := SortedKeys(manifest.Keys * spec.Keys);
    NamesOrdered(missing);
    NamesOrdered(extra);
    LinesJoin(MissingLines(missing), ExtraLines(extra));
    MismatchesOrdered(manifest, spec, names);
    MismatchesOnly(manifest, spec, names);
    LinesJoin(MissingLines(missing) + ExtraLines(extra), MismatchLines(manifest, spec, names));
  }

  predicate DetailsGoOn(ls: seq<Line>) {
    forall i | 0 <= i < |ls| && (ls[i].DetailLine? || ls[i].MoreLines?) :: i > 0 && Part(ls[i - 1]) == 2
  }

  lemma DetailsAfter(head: seq<Line>, lines: seq<Line>)
    requires OnlyMismatches(lines) && StartsSection(lines) && forall i | 0 <= i < |head| :: Part(head[i]) < 2
    ensures DetailsGoOn(head + lines)
  {
  }

  /** No difference is listed outside the section of a block. */
  lemma DetailsFollow(manifest: map<string, Value>, spec: map<string, Value>)
    ensures DetailsGoOn(Report(manifest, spec))
  {
    var head := MissingLines(SortedKeys(manifest.Keys - spec.Keys)) + ExtraLines(SortedKeys(spec.Keys - manifest.Keys));
    var names := SortedKeys(manifest.Keys * spec.Keys);
    MismatchesSectioned(manifest, spec, names);
    MismatchesOnly(manifest, spec, names);
    DetailsAfter(head, MismatchLines(manifest, spec, names));
  }
}
