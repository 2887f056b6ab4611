/** The order in which differences are reported. With what is reported and that nothing is reported twice it fixes the
    whole list. */
module DiffOrder {
  import opened Values
  import opened KeyOrder
  import opened Diffing

  /** Within one dict: keys missing in the specification, then keys unexpected there, then what is below common keys. */
  function Rank(d: Diff, n: nat): nat {
    if |d.path| == n + 1 && d.detail == MissingInSpec then 0
    else if |d.path| == n + 1 && d.detail == UnexpectedInSpec then 1
    else 2
  }

  /** The reports part at step n: by index, by rank, or by key. */
  ghost predicate StepBefore(x: Diff, y: Diff, n: nat)
    requires n < |x.path| && n < |y.path|
  {
    match (x.path[n], y.path[n])
    case (Index(i), Index(j)) => i < j
    case (Key(k), Key(l)) => Rank(x, n) < Rank(y, n) || (Rank(x, n) == Rank(y, n) && Before(k, l))
    case _ => false
  }

  /** The reports agree in n steps; then x ends, being about the value that y is within, or they part. */
  ghost predicate PrecedesAt(x: Diff, y: Diff, n: nat) {
    && n <= |x.path| && n < |y.path| && x.path[..n] == y.path[..n]
    && (n == |x.path| || StepBefore(x, y, n))
  }

  ghost predicate Precedes(x: Diff, y: Diff) {
    exists n: nat :: PrecedesAt(x, y, n)
  }

  ghost predicate Ordered(ds: seq<Diff>) {
    forall i, j | 0 <= i < j < |ds| :: Precedes(ds[i], ds[j])
  }

  ghost predicate AllPrecede(xs: seq<Diff>, ys: seq<Diff>) {
    forall i, j | 0 <= i < |xs| && 0 <= j < |ys| :: Precedes(xs[i], ys[j])
  }

  lemma OrderedJoin(xs: seq<Diff>, ys: seq<Diff>)
    requires Ordered(xs) && Ordered(ys) && AllPrecede(xs, ys)
    ensures Ordered(xs + ys)
  {
  }

  /** The reports go on from path with a step of ss, and are about something below it. */
  predicate Within(path: Path, ss: set<Step>, ds: seq<Diff>) {
    forall i | 0 <= i < |ds| :: path < ds[i].path && ds[i].path[|path|] in ss && Rank(ds[i], |path|) == 2
  }

  /** A report of the diff of two children goes on from their path, and is no report of a lone key. */
  lemma ChildWithin(e: Value, a: Value, path: Path, s: Step)
    ensures Within(path, {s}, DiffPaths(e, a, path + [s]))
  {
    var ds := DiffPaths(e, a, path + [s]);
    forall i | 0 <= i < |ds| ensures path < ds[i].path && ds[i].path[|path|] == s && Rank(ds[i], |path|) == 2 {
      DiffExact(e, a, path + [s], ds[i]);
      assert (path + [s])[|path|] == s;
      if |ds[i].path| == |path| + 1 {
        assert ds[i].path == path + [s];
        TruthfulHere(e, a, path + [s], ds[i]);
      }
    }
  }

  lemma LoneKeysOrdered(path: Path, ks: seq<string>, detail: Detail)
    requires Sorted(ks)
    ensures Ordered(KeyDiffs(path, ks, detail))
  {
    var ds := KeyDiffs(path, ks, detail);
    forall i, j | 0 <= i < j < |ds| ensures Precedes(ds[i], ds[j]) {
      StrLessExact(ks[i], ks[j]);
      assert PrecedesAt(ds[i], ds[j], |path|);
    }
  }

  lemma MissingThenExtra(path: Path, ks: seq<string>, ls: seq<string>)
    ensures AllPrecede(KeyDiffs(path, ks, MissingInSpec), KeyDiffs(path, ls, UnexpectedInSpec))
  {
    var xs, ys := KeyDiffs(path, ks, MissingInSpec), KeyDiffs(path, ls, UnexpectedInSpec);
    forall i, j | 0 <= i < |xs| && 0 <= j < |ys| ensures Precedes(xs[i], ys[j]) {
      assert PrecedesAt(xs[i], ys[j], |path|);
    }
  }

  predicate AllKeys(ss: set<Step>) {
    forall s | s in ss :: s.Key?
  }

  lemma LoneThenCommon(path: Path, ks: seq<string>, detail: Detail, ss: set<Step>, ys: seq<Diff>)
    requires (detail == MissingInSpec || detail == UnexpectedInSpec) && Within(path, ss, ys) && AllKeys(ss)
    ensures AllPrecede(KeyDiffs(path, ks, detail), ys)
  {
    var xs := KeyDiffs(path, ks, detail);
    forall i, j | 0 <= i < |xs| && 0 <= j < |ys| ensures Precedes(xs[i], ys[j]) {
      assert PrecedesAt(xs[i], ys[j], |path|);
    }
  }

  lemma EitherPrecedes(xs: seq<Diff>, ys: seq<Diff>, zs: seq<Diff>)
    requires AllPrecede(xs, zs) && AllPrecede(ys, zs)
    ensures AllPrecede(xs + ys, zs)
  {
  }

  lemma DictOrdered(e: Value, a: Value, path: Path)
    requires e.Dict? && a.Dict?
    requires var ds := FieldDiffs(e, a, CommonKeys(e, a), path);
             Ordered(ds) && Within(path, KeySteps(CommonKeys(e, a)), ds)
    ensures Ordered(DiffPaths(e, a, path))
  {
    var missing, extra := MissingKeys(e, a), MissingKeys(a, e);
    var xs, ys := KeyDiffs(path, missing, MissingInSpec), KeyDiffs(path, extra, UnexpectedInSpec);
    var ss, zs := KeySteps(CommonKeys(e, a)), FieldDiffs(e, a, CommonKeys(e, a), path);
    LoneKeysOrdered(path, missing, MissingInSpec);
    LoneKeysOrdered(path, extra, UnexpectedInSpec);
    MissingThenExtra(path, missing, extra);
    OrderedJoin(xs, ys);
    LoneThenCommon(path, missing, MissingInSpec, ss, zs);
    LoneThenCommon(path, extra, UnexpectedInSpec, ss, zs);
    EitherPrecedes(xs, ys, zs);
    OrderedJoin(xs + ys, zs);
  }

  /** All steps of ss are indexes from lo on, or keys after k. */
  ghost predicate StepsAfter(s: Step, ss: set<Step>) {
    forall r | r in ss :: match (s, r) case (Index(i), Index(j)) => i < j case (Key(k), Key(l)) => Before(k, l) case _ => false
  }

  lemma ChildThenRest(path: Path, s: Step, xs: seq<Diff>, ss: set<Step>, ys: seq<Diff>)
    requires Within(path, {s}, xs) && Within(path, ss, ys) && StepsAfter(s, ss) && Ordered(xs) && Ordered(ys)
    ensures Ordered(xs + ys) && Within(path, {s} + ss, xs + ys)
  {
    forall i, j | 0 <= i < |xs| && 0 <= j < |ys| ensures Precedes(xs[i], ys[j]) {
      assert xs[i].path[|path|] == s && ys[j].path[|path|] in ss;
      assert PrecedesAt(xs[i], ys[j], |path|);
    }
    OrderedJoin(xs, ys);
  }

  lemma {:induction false} FieldsOrdered(e: Value, a: Value, ks: seq<string>, path: Path)
    requires e.Dict? && a.Dict? && AreCommon(e, a, ks) && Sorted(ks)
    ensures Ordered(FieldDiffs(e, a, ks, path)) && Within(path, KeySteps(ks), FieldDiffs(e, a, ks, path))
    decreases e, 0, |ks|
  {
    if ks != [] {
      DiffOrdered(e.fields[ks[0]], a.fields[ks[0]], path + [Key(ks[0])]);
      ChildWithin(e.fields[ks[0]], a.fields[ks[0]], path, Key(ks[0]));
      FieldsOrdered(e, a, ks[1..], path);
      KeysAfter(ks);
      ChildThenRest(path, Key(ks[0]), DiffPaths(e.fields[ks[0]], a.fields[ks[0]], path + [Key(ks[0])]),
                    KeySteps(ks[1..]), FieldDiffs(e, a, ks[1..], path));
    }
  }

  lemma KeysAfter(ks: seq<string>)
    requires ks != [] && Sorted(ks)
    ensures StepsAfter(Key(ks[0]), KeySteps(ks[1..])) && KeySteps(ks) == {Key(ks[0])} + KeySteps(ks[1..])
  {
    forall r | r in KeySteps(ks[1..]) ensures r.Key? && Before(ks[0], r.k) {
      var j :| 0 < j < |ks| && r == Key(ks[j]);
      StrLessExact(ks[0], ks[j]);
    }
  }

  lemma {:induction false} ItemsOrdered(e: Value, a: Value, i: nat, path: Path)
    requires e.List? && a.List? && i <= MinLength(e, a)
    ensures Ordered(ItemDiffs(e, a, i, path))
    ensures Within(path, IndexSteps(i, MinLength(e, a)), ItemDiffs(e, a, i, path))
    decreases e, 0, MinLength(e, a) - i
  {
    var n := MinLength(e, a);
    if i < n {
      DiffOrdered(e.items[i], a.items[i], path + [Index(i)]);
      ChildWithin(e.items[i], a.items[i], path, Index(i));
      ItemsOrdered(e, a, i + 1, path);
      assert IndexSteps(i, n) == {Index(i)} + IndexSteps(i + 1, n);
      ChildThenRest(path, Index(i), DiffPaths(e.items[i], a.items[i], path + [Index(i)]),
                    IndexSteps(i + 1, n), ItemDiffs(e, a, i + 1, path));
    }
  }

  lemma ListOrdered(e: Value, a: Value, path: Path, ss: set<Step>)
    requires e.List? && a.List? && Ordered(ItemDiffs(e, a, 0, path)) && Within(path, ss, ItemDiffs(e, a, 0, path))
    ensures Ordered(DiffPaths(e, a, path))
  {
    var items := ItemDiffs(e, a, 0, path);
    if |e.items| != |a.items| {
      var d := Diff(path, LengthDiffers(|e.items|, |a.items|));
      forall j | 0 <= j < |items| ensures Precedes(d, items[j]) {
        assert PrecedesAt(d, items[j], |path|);
      }
      OrderedJoin([d], items);
    }
  }

  /** The reports come in this order: what is about a value before what is below it, list items by index, and within a
      dict first the missing keys, then the unexpected ones, then the common ones, each by Python's order of strings. */
  lemma {:induction false} DiffOrdered(e: Value, a: Value, path: Path)
    ensures Ordered(DiffPaths(e, a, path))
    decreases e, 1, 0
  {
    if e.Dict? && a.Dict? {
      FieldsOrdered(e, a, CommonKeys(e, a), path);
      DictOrdered(e, a, path);
    } else if e.List? && a.List? {
      ItemsOrdered(e, a, 0, path);
      ListOrdered(e, a, path, IndexSteps(0, MinLength(e, a)));
    } else {
      LeafDiffs(e, a, path);
    }
  }
}
