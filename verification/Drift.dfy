/** The drift guard: collecting the tagged blocks of the specification and comparing them with the
    manifest. */
module Drift {
  import opened Outcomes
  import opened Values
  import opened KeyOrder
  import opened Diffing
  import opened Tagging

  // ----- collecting blocks -------------------------------------------------------------------

  /** One match of the block pattern: the marker's name without surrounding white space, the fence's
      language and its body. */
  datatype Match = Match(name: string, lang: string, body: string)

  datatype BlockError = Unparseable(name: string) | Duplicate(name: string)

  /** A match as it is read: its name and what its body parses to. */
  datatype Reading = Reading(name: string, value: Option<Value>)

  function Readings(parse: Parser, ms: seq<Match>): (ps: seq<Reading>)
    ensures |ps| == |ms| && forall i | 0 <= i < |ms| :: ps[i] == Reading(ms[i].name, parse(ms[i].lang, ms[i].body))
  {
    seq(|ms|, i requires 0 <= i < |ms| => Reading(ms[i].name, parse(ms[i].lang, ms[i].body)))
  }

  /** Match i is the first that parses under the name n. */
  predicate IsFirst(ps: seq<Reading>, n: string, i: nat) {
    && i < |ps| && ps[i].name == n && ps[i].value.Some?
    && forall j | 0 <= j < i :: !(ps[j].name == n && ps[j].value.Some?)
  }

  /** The blocks of the first k matches: the first to parse under a name keeps it. */
  function FirstBlocks(ps: seq<Reading>, k: nat): map<string, Value>
    requires k <= |ps|
  {
    if k == 0 then map[]
    else
      var blocks, m := FirstBlocks(ps, k - 1), ps[k - 1];
      if m.value.Some? && m.name !in blocks then blocks[m.name := m.value.value] else blocks
  }

  /** The error of match i, if it has one. */
  function ErrorAt(ps: seq<Reading>, i: nat): seq<BlockError>
    requires i < |ps|
  {
    var name := ps[i].name;
    if !ps[i].value.Some? then [Unparseable(name)]
    else if IsFirst(ps, name, i) then []
    else [Duplicate(name)]
  }

  /** The errors of the first k matches, in order. */
  function ErrorsOf(ps: seq<Reading>, k: nat): seq<BlockError>
    requires k <= |ps|
  {
    if k == 0 then [] else ErrorsOf(ps, k - 1) + ErrorAt(ps, k - 1)
  }

  method ParseSpecBlocks(parse: Parser, ms: seq<Match>) returns (blocks: map<string, Value>, errors: seq<BlockError>)
    ensures blocks == FirstBlocks(Readings(parse, ms), |ms|)
    ensures errors == ErrorsOf(Readings(parse, ms), |ms|)
  {
    ghost var ps := Readings(parse, ms);
    blocks, errors := map[], [];
    for k := 0 to |ms|
      invariant blocks == FirstBlocks(ps, k)
      invariant errors == ErrorsOf(ps, k)
    {
      var m := ms[k];
      var name := m.name;
      var value := parse(m.lang, m.body);
      TakenExact(ps, k);
      if value == None {
        errors := errors + [Unparseable(name)];
        continue;
      }
      if name in blocks {
        errors := errors + [Duplicate(name)];
        continue;
      }
      blocks := blocks[name := value.value];
    }
  }

  /** Some match among the first k is the first to parse under n. */
  predicate HasFirst(ps: seq<Reading>, k: nat, n: string) {
    exists i: nat | i < k :: IsFirst(ps, n, i)
  }

  lemma HasFirstStep(ps: seq<Reading>, k: nat, n: string)
    requires 0 < k <= |ps|
    ensures HasFirst(ps, k, n) <==> HasFirst(ps, k - 1, n) || IsFirst(ps, n, k - 1)
    ensures IsFirst(ps, n, k - 1) <==>
            ps[k - 1].value.Some? && ps[k - 1].name == n && !HasFirst(ps, k - 1, n)
  {
    var m := ps[k - 1];
    if m.value.Some? && m.name == n {
      FirstOrEarlier(ps, k - 1);
    }
  }

  /** Exactly the names with a match that parses are collected. */
  lemma {:induction false} FirstBlocksNames(ps: seq<Reading>, k: nat, n: string)
    requires k <= |ps|
    ensures n in FirstBlocks(ps, k) <==> HasFirst(ps, k, n)
    decreases k
  {
    if k > 0 {
      FirstBlocksNames(ps, k - 1, n);
      HasFirstStep(ps, k, n);
    }
  }

  /** A name is taken when a match comes exactly if it parses but is not the first to do so under the name. */
  lemma TakenExact(ps: seq<Reading>, k: nat)
    requires k < |ps|
    ensures ps[k].value.Some? ==>
              (ps[k].name in FirstBlocks(ps, k) <==> !IsFirst(ps, ps[k].name, k))
  {
    FirstBlocksNames(ps, k, ps[k].name);
    HasFirstStep(ps, k + 1, ps[k].name);
  }

  /** Each collected name has the value of its first match that parses. */
  lemma {:induction false} FirstBlocksValues(ps: seq<Reading>, k: nat, n: string, i: nat)
    requires i < k <= |ps| && IsFirst(ps, n, i)
    ensures n in FirstBlocks(ps, k)
    ensures FirstBlocks(ps, k)[n] == ps[i].value.value
    decreases k
  {
    FirstBlocksNames(ps, k, n);
    FirstBlocksNames(ps, k - 1, n);
    HasFirstStep(ps, k, n);
    if i < k - 1 {
      FirstBlocksValues(ps, k - 1, n, i);
    }
  }

  /** A match that parses is the first under its name exactly when no earlier one is. */
  lemma FirstOrEarlier(ps: seq<Reading>, k: nat)
    requires k < |ps| && ps[k].value.Some?
    ensures IsFirst(ps, ps[k].name, k) <==>
            !exists i: nat | i < k :: IsFirst(ps, ps[k].name, i)
  {
    var n := ps[k].name;
    if !IsFirst(ps, n, k) {
      var j :| 0 <= j < k && ps[j].name == n && ps[j].value.Some?;
      FirstUpTo(ps, n, j);
    }
  }

  lemma {:induction false} FirstUpTo(ps: seq<Reading>, n: string, j: nat)
    requires j < |ps| && ps[j].name == n && ps[j].value.Some?
    ensures exists i: nat | i <= j :: IsFirst(ps, n, i)
    decreases j
  {
    if !IsFirst(ps, n, j) {
      var l :| 0 <= l < j && ps[l].name == n && ps[l].value.Some?;
      FirstUpTo(ps, n, l);
    }
  }

  /** Every match yields a block or an error. */
  lemma {:induction false} MatchesAccounted(ps: seq<Reading>, k: nat)
    requires k <= |ps|
    ensures |FirstBlocks(ps, k)| + |ErrorsOf(ps, k)| == k
    decreases k
  {
    if k > 0 {
      MatchesAccounted(ps, k - 1);
      TakenExact(ps, k - 1);
    }
  }

  predicate Yields(ps: seq<Reading>, i: nat) {
    i < |ps| && IsFirst(ps, ps[i].name, i)
  }

  lemma YieldsExact(ps: seq<Reading>, i: nat)
    requires i < |ps|
    ensures |ErrorAt(ps, i)| == if Yields(ps, i) then 0 else 1
  {
  }

  predicate AllYield(ps: seq<Reading>, k: nat) {
    forall i: nat | i < k :: Yields(ps, i)
  }

  /** How many of the first k matches yield no block. */
  function Failures(ps: seq<Reading>, k: nat): nat {
    if k == 0 then 0 else Failures(ps, k - 1) + if Yields(ps, k - 1) then 0 else 1
  }

  lemma {:induction false} ErrorsCount(ps: seq<Reading>, k: nat)
    requires k <= |ps|
    ensures |ErrorsOf(ps, k)| == Failures(ps, k)
    decreases k
  {
    if k > 0 {
      ErrorsCount(ps, k - 1);
      YieldsExact(ps, k - 1);
    }
  }

  lemma {:induction false} NoFailures(ps: seq<Reading>, k: nat)
    ensures Failures(ps, k) == 0 <==> AllYield(ps, k)
    decreases k
  {
    if k > 0 {
      NoFailures(ps, k - 1);
      assert AllYield(ps, k) <==> AllYield(ps, k - 1) && Yields(ps, k - 1);
    }
  }

  /** There are no errors exactly when every match is the first to parse under its name. */
  lemma NoErrorsExact(ps: seq<Reading>, k: nat)
    requires k <= |ps|
    ensures |ErrorsOf(ps, k)| == 0 <==> AllYield(ps, k)
  {
    ErrorsCount(ps, k);
    NoFailures(ps, k);
  }

  lemma PlacesMore(js: seq<nat>, k: nat)
    requires Places(js, k)
    ensures Places(js, k + 1) && Places(js + [k], k + 1)
  {
  }

  function ErrorFor(r: Reading): BlockError {
    if r.value == None then Unparseable(r.name) else Duplicate(r.name)
  }

  /** The errors are those of the matches at the places js. */
  predicate ErrorsAre(ps: seq<Reading>, js: seq<nat>, errors: seq<BlockError>) {
    Places(js, |ps|) && |errors| == |js| && forall m | 0 <= m < |js| :: errors[m] == ErrorFor(ps[js[m]])
  }

  /** js are those of the first k places whose match yields no block. */
  predicate Failing(ps: seq<Reading>, js: seq<nat>, k: nat)
    requires k <= |ps|
  {
    forall i: nat | i < k :: i in js <==> !Yields(ps, i)
  }

  lemma FailingMore(ps: seq<Reading>, js: seq<nat>, k: nat)
    requires k < |ps| && Places(js, k) && Failing(ps, js, k)
    ensures Failing(ps, if Yields(ps, k) then js else js + [k], k + 1)
  {
    assert k !in js;
    forall i: nat | i < k ensures i in js + [k] <==> i in js {
    }
  }

  lemma ErrorsAreMore(ps: seq<Reading>, js: seq<nat>, errors: seq<BlockError>, k: nat)
    requires k < |ps| && Places(js, k) && ErrorsAre(ps, js, errors)
    ensures ErrorsAre(ps, js + [k], errors + [ErrorFor(ps[k])])
  {
  }

  lemma ErrorsMore(ps: seq<Reading>, k: nat)
    requires k < |ps|
    ensures Yields(ps, k) ==> ErrorsOf(ps, k + 1) == ErrorsOf(ps, k)
    ensures !Yields(ps, k) ==> ErrorsOf(ps, k + 1) == ErrorsOf(ps, k) + [ErrorFor(ps[k])]
  {
  }

  /** The errors of the first k matches are those of the places js, which are the places that yield no block. */
  predicate Accounts(ps: seq<Reading>, k: nat, js: seq<nat>)
    requires k <= |ps|
  {
    Places(js, k) && ErrorsAre(ps, js, ErrorsOf(ps, k)) && Failing(ps, js, k)
  }

  lemma AccountsNone(ps: seq<Reading>)
    ensures Accounts(ps, 0, [])
  {
  }

  lemma AccountsOne(ps: seq<Reading>, k: nat, front: seq<nat>) returns (js: seq<nat>)
    requires k < |ps| && Accounts(ps, k, front)
    ensures Accounts(ps, k + 1, js)
  {
    PlacesMore(front, k);
    FailingMore(ps, front, k);
    ErrorsMore(ps, k);
    if Yields(ps, k) {
      js := front;
    } else {
      js := front + [k];
      ErrorsAreMore(ps, front, ErrorsOf(ps, k), k);
    }
  }

  /** The errors are those of the matches that yield no block, in the order of the matches: that the body does not parse,
      or else that an earlier match has taken the name. */
  lemma {:induction false} ErrorsExact(ps: seq<Reading>, k: nat) returns (js: seq<nat>)
    requires k <= |ps|
    ensures Accounts(ps, k, js)
    decreases k
  {
    if k == 0 {
      js := [];
      AccountsNone(ps);
    } else {
      var front := ErrorsExact(ps, k - 1);
      js := AccountsOne(ps, k - 1, front);
    }
  }

  // ----- comparing ---------------------------------------------------------------------------

  datatype Line =
    | MissingBlock(name: string)
    | ExtraBlock(name: string)
    | Mismatch(name: string, paths: nat)
    | DetailLine(d: Diff)
    | MoreLines(n: nat)

  const SHOWN := 40

  function DetailLines(ds: seq<Diff>): seq<Line> {
    if |ds| <= SHOWN then seq(|ds|, i requires 0 <= i < |ds| => DetailLine(ds[i]))
    else seq(SHOWN, i requires 0 <= i < |ds| => DetailLine(ds[i])) + [MoreLines(|ds| - SHOWN)]
  }

  /** The lines about one block both sides have. */
  function BlockLines(name: string, ds: seq<Diff>): seq<Line> {
    if ds == [] then [] else [Mismatch(name, |ds|)] + DetailLines(ds)
  }

  predicate AreShared(manifest: map<string, Value>, spec: map<string, Value>, names: seq<string>) {
    forall i | 0 <= i < |names| :: names[i] in manifest && names[i] in spec
  }

  function MismatchLines(manifest: map<string, Value>, spec: map<string, Value>, names: seq<string>): seq<Line>
    requires AreShared(manifest, spec, names)
  {
    if names == [] then []
    else
      var last := |names| - 1;
      MismatchLines(manifest, spec, names[..last])
      + BlockLines(names[last], DiffPaths(manifest[names[last]], spec[names[last]], []))
  }

  function MissingLines(names: seq<string>): seq<Line> {
    seq(|names|, i requires 0 <= i < |names| => MissingBlock(names[i]))
  }

  function ExtraLines(names: seq<string>): seq<Line> {
    seq(|names|, i requires 0 <= i < |names| => ExtraBlock(names[i]))
  }

  function Report(manifest: map<string, Value>, spec: map<string, Value>): seq<Line> {
    MissingLines(SortedKeys(manifest.Keys - spec.Keys))
    + ExtraLines(SortedKeys(spec.Keys - manifest.Keys))
    + MismatchLines(manifest, spec, SortedKeys(manifest.Keys * spec.Keys))
  }

  /** Manifest and specification hold the same blocks with equal values, free of NaN. */
  predicate InSync(manifest: map<string, Value>, spec: map<string, Value>) {
    Equal(Dict(manifest), Dict(spec)) && !HasNaN(Dict(manifest))
  }

  method ShowBlock(name: string, ds: seq<Diff>) returns (lines: seq<Line>)
    requires ds != []
    ensures lines == BlockLines(name, ds)
  {
    lines := [Mismatch(name, |ds|)];
    var shown := if |ds| <= SHOWN then |ds| else SHOWN;
    for i := 0 to shown
      invariant lines == [Mismatch(name, |ds|)] + seq(i, j requires 0 <= j < i => DetailLine(ds[j]))
    {
      lines := lines + [DetailLine(ds[i])];
    }
    if |ds| > SHOWN {
      lines := lines + [MoreLines(|ds| - SHOWN)];
    }
  }

  method ShowMissing(names: seq<string>) returns (lines: seq<Line>)
    ensures lines == MissingLines(names)
  {
    lines := [];
    for i := 0 to |names|
      invariant lines == MissingLines(names[..i])
    {
      lines := lines + [MissingBlock(names[i])];
    }
    assert names[..|names|] == names;
  }

  method ShowExtra(names: seq<string>) returns (lines: seq<Line>)
    ensures lines == ExtraLines(names)
  {
    lines := [];
    for i := 0 to |names|
      invariant lines == ExtraLines(names[..i])
    {
      lines := lines + [ExtraBlock(names[i])];
    }
    assert names[..|names|] == names;
  }

  method ShowMismatches(manifest: map<string, Value>, spec: map<string, Value>, names: seq<string>)
    returns (lines: seq<Line>, mismatches: nat)
    requires AreShared(manifest, spec, names)
    ensures lines == MismatchLines(manifest, spec, names)
    ensures mismatches == 0 <==> lines == []
  {
    lines, mismatches := [], 0;
    for i := 0 to |names|
      invariant lines == MismatchLines(manifest, spec, names[..i])
      invariant mismatches == 0 <==> lines == []
    {
      var name := names[i];
      var ds := DiffPaths(manifest[name], spec[name], []);
      assert names[..i + 1][..i] == names[..i];
      if ds != [] {
        mismatches := mismatches + 1;
        var shown := ShowBlock(name, ds);
        lines := lines + shown;
      }
    }
    assert names[..|names|] == names;
  }

  method Compare(manifest: map<string, Value>, spec: map<string, Value>) returns (ok: bool, report: seq<Line>)
    ensures ok <==> InSync(manifest, spec)
    ensures ok <==> report == []
    ensures report == Report(manifest, spec)
  {
    var missing := SortedKeys(manifest.Keys - spec.Keys);
    var extra := SortedKeys(spec.Keys - manifest.Keys);
    var missingLines := ShowMissing(missing);
    var extraLines := ShowExtra(extra);
    var mismatchLines, mismatches := ShowMismatches(manifest, spec, SortedKeys(manifest.Keys * spec.Keys));
    report := missingLines + extraLines + mismatchLines;
    ok := missing == [] && extra == [] && mismatches == 0;
    ReportEmptyExact(manifest, spec);
  }

  predicate SameBlock(manifest: map<string, Value>, spec: map<string, Value>, n: string)
    requires n in manifest && n in spec
  {
    Same(manifest[n], spec[n]) && !HasNaN(manifest[n])
  }

  lemma {:induction false} NoMismatch(manifest: map<string, Value>, spec: map<string, Value>, names: seq<string>, i: nat)
    requires AreShared(manifest, spec, names) && i < |names| && MismatchLines(manifest, spec, names) == []
    ensures SameBlock(manifest, spec, names[i])
    decreases |names|
  {
    var last := |names| - 1;
    var ds := DiffPaths(manifest[names[last]], spec[names[last]], []);
    assert MismatchLines(manifest, spec, names) == MismatchLines(manifest, spec, names[..last]) + BlockLines(names[last], ds);
    if i == last {
      DiffEmptyExact(manifest[names[i]], spec[names[i]], []);
    } else {
      NoMismatch(manifest, spec, names[..last], i);
    }
  }

  lemma {:induction false} NothingToShow(manifest: map<string, Value>, spec: map<string, Value>, names: seq<string>)
    requires AreShared(manifest, spec, names) && forall i | 0 <= i < |names| :: SameBlock(manifest, spec, names[i])
    ensures MismatchLines(manifest, spec, names) == []
    decreases |names|
  {
    if names != [] {
      var last := |names| - 1;
      assert SameBlock(manifest, spec, names[last]);
      DiffEmptyExact(manifest[names[last]], spec[names[last]], []);
      NothingToShow(manifest, spec, names[..last]);
    }
  }

  lemma MismatchesEmpty(manifest: map<string, Value>, spec: map<string, Value>, names: seq<string>)
    requires AreShared(manifest, spec, names)
    ensures MismatchLines(manifest, spec, names) == [] <==>
            forall i | 0 <= i < |names| :: SameBlock(manifest, spec, names[i])
  {
    if MismatchLines(manifest, spec, names) == [] {
      forall i | 0 <= i < |names| ensures SameBlock(manifest, spec, names[i]) {
        NoMismatch(manifest, spec, names, i);
      }
    } else if forall i | 0 <= i < |names| :: SameBlock(manifest, spec, names[i]) {
      NothingToShow(manifest, spec, names);
    }
  }

  lemma InSyncByName(manifest: map<string, Value>, spec: map<string, Value>)
    ensures InSync(manifest, spec) <==>
            manifest.Keys == spec.Keys && forall k | k in manifest :: k in spec && SameBlock(manifest, spec, k)
  {
  }

  lemma NamesOnBothSides(manifest: map<string, Value>, spec: map<string, Value>)
    ensures SortedKeys(manifest.Keys - spec.Keys) == [] && SortedKeys(spec.Keys - manifest.Keys) == [] <==>
            manifest.Keys == spec.Keys
  {
    NoLoneKeys(Dict(manifest), Dict(spec));
  }

  /** The report is empty exactly when the two sides are in sync. */
  lemma ReportEmptyExact(manifest: map<string, Value>, spec: map<string, Value>)
    ensures Report(manifest, spec) == [] <==> InSync(manifest, spec)
  {
    var names := SortedKeys(manifest.Keys * spec.Keys);
    InSyncByName(manifest, spec);
    NamesOnBothSides(manifest, spec);
    MismatchesEmpty(manifest, spec, names);
    if manifest.Keys == spec.Keys {
      forall k | k in manifest ensures exists i :: 0 <= i < |names| && names[i] == k {
        assert k in names;
      }
    }
  }

  predicate Flags(lines: seq<Line>, name: string) {
    exists i | 0 <= i < |lines| :: lines[i].Mismatch? && lines[i].name == name
  }

  lemma FlagsAppend(x: seq<Line>, y: seq<Line>, name: string)
    ensures Flags(x + y, name) <==> Flags(x, name) || Flags(y, name)
  {
    var z := x + y;
    if i :| 0 <= i < |x| && x[i].Mismatch? && x[i].name == name {
      assert z[i] == x[i];
    }
    if i :| 0 <= i < |y| && y[i].Mismatch? && y[i].name == name {
      assert z[|x| + i] == y[i];
    }
  }

  lemma BlockFlags(n: string, ds: seq<Diff>, name: string)
    ensures Flags(BlockLines(n, ds), name) <==> ds != [] && n == name
  {
    if ds != [] {
      assert BlockLines(n, ds)[0] == Mismatch(n, |ds|);
      assert forall i | 0 < i < |BlockLines(n, ds)| :: BlockLines(n, ds)[i] == DetailLines(ds)[i - 1];
    }
  }

  lemma MismatchStep(manifest: map<string, Value>, spec: map<string, Value>, names: seq<string>)
    requires AreShared(manifest, spec, names) && names != []
    ensures var last := |names| - 1;
            MismatchLines(manifest, spec, names)
            == MismatchLines(manifest, spec, names[..last])
               + BlockLines(names[last], DiffPaths(manifest[names[last]], spec[names[last]], []))
  {
  }

  lemma InFront(names: seq<string>, n: string)
    requires names != []
    ensures n in names <==> n in names[..|names| - 1] || n == names[|names| - 1]
  {
    assert names == names[..|names| - 1] + [names[|names| - 1]];
  }

  lemma {:induction false} MismatchFlags(manifest: map<string, Value>, spec: map<string, Value>, names: seq<string>, n: string)
    requires AreShared(manifest, spec, names)
    ensures Flags(MismatchLines(manifest, spec, names), n) <==>
            n in names && DiffPaths(manifest[n], spec[n], []) != []
    decreases |names|
  {
    if names != [] {
      var last := |names| - 1;
      var ds := DiffPaths(manifest[names[last]], spec[names[last]], []);
      MismatchFlags(manifest, spec, names[..last], n);
      MismatchStep(manifest, spec, names);
      BlockFlags(names[last], ds, n);
      FlagsAppend(MismatchLines(manifest, spec, names[..last]), BlockLines(names[last], ds), n);
      InFront(names, n);
    }
  }

  /** The report flags a block exactly when both sides have it and their values differ or hold a NaN. */
  lemma ReportFlags(manifest: map<string, Value>, spec: map<string, Value>, n: string)
    ensures Flags(Report(manifest, spec), n) <==> n in manifest && n in spec && !SameBlock(manifest, spec, n)
  {
    var missing := MissingLines(SortedKeys(manifest.Keys - spec.Keys));
    var extra := ExtraLines(SortedKeys(spec.Keys - manifest.Keys));
    var names := SortedKeys(manifest.Keys * spec.Keys);
    MismatchFlags(manifest, spec, names, n);
    FlagsAppend(missing + extra, MismatchLines(manifest, spec, names), n);
    FlagsAppend(missing, extra, n);
    assert !Flags(missing, n) && !Flags(extra, n);
    if n in manifest && n in spec {
      DiffEmptyExact(manifest[n], spec[n], []);
    }
  }

  /** The guard passes exactly when every tagged block parses, no name is tagged twice, and the blocks
      are in sync with the manifest; then markers and manifest entries are equally many. */
  method Check(parse: Parser, manifest: map<string, Value>, ms: seq<Match>) returns (passed: bool)
    ensures passed <==>
            && AllYield(Readings(parse, ms), |ms|)
            && InSync(manifest, FirstBlocks(Readings(parse, ms), |ms|))
    ensures passed ==> |ms| == |manifest|
  {
    var blocks, errors := ParseSpecBlocks(parse, ms);
    var ok, report := Compare(manifest, blocks);
    passed := ok && errors == [];
    MatchesAccounted(Readings(parse, ms), |ms|);
    NoErrorsExact(Readings(parse, ms), |ms|);
    InSyncByName(manifest, blocks);
    if passed {
      assert |manifest| == |manifest.Keys| == |blocks.Keys| == |blocks|;
    }
  }
}
