/** The printed form of the paths in a drift report, and when it can be told apart. */
module Rendering {
  import opened Numerals
  import opened Values
  import opened Diffing

  function LStripDots(s: string): string {
    if s != "" && s[0] == '.' then LStripDots(s[1..]) else s
  }

  function Brackets(n: nat): string {
    "[" + Print(Dec, n, 0) + "]"
  }

  function Render(p: Path): string {
    if p == [] then ""
    else
      var parent := Render(p[..|p| - 1]);
      match p[|p| - 1]
      case Key(k) => LStripDots(parent + "." + k)
      case Index(i) => parent + Brackets(i)
  }

  // ----- paths that print alike --------------------------------------------------------------

  lemma KeyRender(k: string)
    ensures Render([Key(k)]) == LStripDots("." + k) == LStripDots(k)
  {
    assert [Key(k)][..0] == [];
    assert ("." + k)[1..] == k;
  }

  lemma IndexRender(n: nat)
    ensures Render([Index(n)]) == Brackets(n)
  {
    assert [Index(n)][..0] == [];
  }

  /** Keys are joined by dots, and an index stands in brackets behind what it is taken from. */
  lemma RenderSample()
    ensures Render([Key("a"), Index(3), Key("b")]) == "a[3].b"
  {
    KeyRender("a");
    assert [Key("a"), Index(3), Key("b")][..2] == [Key("a"), Index(3)] && [Key("a"), Index(3)][..1] == [Key("a")];
    assert Print(Dec, 3, 0) == "3";
    assert "a" + Brackets(3) == "a[3]" && "a[3]" + "." + "b" == "a[3].b";
  }

  /** Leading dots are stripped, and a dot inside a key reads as a step. */
  lemma RenderCollides()
    ensures Render([Key("a")]) == Render([Key(".a")]) == "a"
    ensures Render([Key("a"), Key("b")]) == Render([Key("a.b")]) == "a.b"
  {
    KeyRender("a");
    KeyRender(".a");
    KeyRender("a.b");
    assert ".a"[1..] == "a";
    assert [Key("a"), Key("b")][..1] == [Key("a")];
    assert "a" + "." + "b" == "a.b";
  }

  lemma LeafReport(e: Value, a: Value, k: string)
    requires e.Dict? && a.Dict? && k in e.fields && k in a.fields
    requires e.fields[k].Int? && a.fields[k].Int? && e.fields[k] != a.fields[k]
    ensures Diff([Key(k)], ValueDiffers) in DiffPaths(e, a, [])
  {
    var d := Diff([Key(k)], ValueDiffers);
    DiffExact(e, a, [], d);
    DiffExact(e.fields[k], a.fields[k], [Key(k)], d);
    assert [] + [Key(k)] == [Key(k)];
    assert DiffPaths(e.fields[k], a.fields[k], [Key(k)]) == [d];
    TruthfulStep(e, a, [], Key(k), d);
  }

  /** Two values whose diff holds two reports that print the same path. */
  lemma ReportsCollide()
    ensures var e := Dict(map["a" := Int(1), ".a" := Int(1)]);
            var a := Dict(map["a" := Int(2), ".a" := Int(2)]);
            exists d, d' | d in DiffPaths(e, a, []) && d' in DiffPaths(e, a, []) ::
              d != d' && Render(d.path) == Render(d'.path)
  {
    var e := Dict(map["a" := Int(1), ".a" := Int(1)]);
    var a := Dict(map["a" := Int(2), ".a" := Int(2)]);
    LeafReport(e, a, "a");
    LeafReport(e, a, ".a");
    RenderCollides();
    var d, d' := Diff([Key("a")], ValueDiffers), Diff([Key(".a")], ValueDiffers);
    assert d.path[0] != d'.path[0];
  }

  // ----- the shape of a printed path ---------------------------------------------------------

  predicate EndsWith(w: string, t: string) {
    |t| <= |w| && w[|w| - |t|..] == t
  }

  /** Keys that cannot be mistaken: not empty, without a dot, and not ending like an index. */
  ghost predicate Legible(p: Path) {
    forall i | 0 <= i < |p| && p[i].Key? :: LegibleKey(p[i].k)
  }

  ghost predicate LegibleKey(k: string) {
    k != "" && '.' !in k && forall n: nat :: !EndsWith(k, Brackets(n))
  }

  /** The printed last step of a path. */
  function LastStep(s: Step): string {
    match s
    case Key(k) => "." + k
    case Index(i) => Brackets(i)
  }

  predicate HasShape(p: Path)
    requires p != []
  {
    var parent, s := Render(p[..|p| - 1]), p[|p| - 1];
    && Render(p) != "" && Render(p)[0] != '.'
    && Render(p) == if |p| == 1 && s.Key? then s.k else parent + LastStep(s)
  }

  lemma {:induction false} RenderShape(p: Path)
    requires p != [] && Legible(p)
    ensures HasShape(p)
  {
    var front, s := p[..|p| - 1], p[|p| - 1];
    var parent := Render(front);
    if front != [] {
      RenderShape(front);
    }
    match s
    case Key(k) =>
      assert LegibleKey(k) && k[0] in k;
      if front == [] {
        assert parent + "." + k == "." + k;
        assert ("." + k)[1..] == k;
        assert LStripDots("." + k) == LStripDots(k) == k;
      } else {
        assert parent + "." + k == parent + LastStep(s);
      }
    case Index(i) =>
      if front == [] {
        assert Render(p)[0] == '[';
      }
  }

  lemma BracketsShape(n: nat)
    ensures Brackets(n)[0] == '['
    ensures forall i | 0 <= i < |Brackets(n)| :: Brackets(n)[i] != '.' && (i > 0 ==> Brackets(n)[i] != '[')
  {
    forall i | 0 <= i < |Brackets(n)| ensures Brackets(n)[i] != '.' && (i > 0 ==> Brackets(n)[i] != '[') {
      if 0 < i < |Brackets(n)| - 1 {
        assert Brackets(n)[i] == Print(Dec, n, 0)[i - 1];
      }
    }
  }

  lemma EndsAt(w: string, t: string)
    requires EndsWith(w, t)
    ensures forall j | |w| - |t| <= j < |w| :: w[j] == t[j - (|w| - |t|)]
  {
    forall j | |w| - |t| <= j < |w| ensures w[j] == t[j - (|w| - |t|)] {
      assert w[j] == w[|w| - |t|..][j - (|w| - |t|)];
    }
  }

  /** The index a text ends in starts at its last opening bracket. */
  lemma LastBracket(w: string, n: nat)
    requires EndsWith(w, Brackets(n))
    ensures var at := |w| - |Brackets(n)|;
            w[at] == '[' && forall j | at < j < |w| :: w[j] != '['
  {
    EndsAt(w, Brackets(n));
    BracketsShape(n);
  }

  /** A text ends in at most one index. */
  lemma EndsInOneIndex(w: string, m: nat, n: nat)
    requires EndsWith(w, Brackets(m)) && EndsWith(w, Brackets(n))
    ensures m == n
  {
    LastBracket(w, m);
    LastBracket(w, n);
    assert Brackets(m) == Brackets(n);
    assert Brackets(m)[1..|Brackets(m)| - 1] == Print(Dec, m, 0) && Brackets(n)[1..|Brackets(n)| - 1] == Print(Dec, n, 0);
    PrintInjective(Dec, m, n, 0);
  }

  lemma EndOfPart(before: string, k: string, t: string)
    requires |t| <= |k|
    ensures EndsWith(before + k, t) <==> EndsWith(k, t)
  {
    var w := before + k;
    assert w[|w| - |t|..] == k[|k| - |t|..];
  }

  /** A text that ends in a legible key after a dot, or is one, does not end in an index. */
  lemma KeyEndsInNoIndex(before: string, k: string, n: nat)
    requires LegibleKey(k) && (before == "" || before[|before| - 1] == '.')
    ensures !EndsWith(before + k, Brackets(n))
  {
    BracketsShape(n);
    assert before != "" ==> (before + k)[|before| - 1] == '.';
    if |Brackets(n)| <= |k| {
      EndOfPart(before, k, Brackets(n));
    } else if EndsWith(before + k, Brackets(n)) {
      EndsAt(before + k, Brackets(n));
    }
  }

  /** The last step is an index exactly when the printed path ends in one. */
  lemma LastStepShows(p: Path, n: nat)
    requires p != [] && Legible(p)
    ensures p[|p| - 1] == Index(n) <==> EndsWith(Render(p), Brackets(n))
  {
    RenderShape(p);
    var parent, s := Render(p[..|p| - 1]), p[|p| - 1];
    match s
    case Key(k) =>
      assert LegibleKey(k);
      if |p| == 1 {
        KeyEndsInNoIndex("", k, n);
        assert "" + k == k;
      } else {
        KeyEndsInNoIndex(parent + ".", k, n);
        assert parent + "." + k == parent + ("." + k);
      }
    case Index(i) =>
      assert EndsWith(Render(p), Brackets(i));
      if EndsWith(Render(p), Brackets(n)) {
        EndsInOneIndex(Render(p), i, n);
      }
  }

  lemma LastDot(a: string, k: string)
    requires '.' !in k
    ensures var w := a + "." + k;
            w[|a|] == '.' && forall j | |a| < j < |w| :: w[j] != '.'
  {
    var w := a + "." + k;
    forall j | |a| < j < |w| ensures w[j] != '.' {
      assert w[j] == k[j - |a| - 1];
    }
  }

  /** A text splits in one way at its last dot. */
  lemma SplitAtDot(a: string, k: string, b: string, l: string)
    requires '.' !in k && '.' !in l && a + "." + k == b + "." + l
    ensures a == b && k == l
  {
    var w := a + "." + k;
    LastDot(a, k);
    LastDot(b, l);
    assert a == w[..|a|] && b == w[..|b|] && k == w[|a| + 1..] && l == w[|b| + 1..];
  }

  /** Only a single key prints without a dot, among the paths that end in a key. */
  lemma DotShows(p: Path)
    requires p != [] && Legible(p) && p[|p| - 1].Key?
    ensures '.' in Render(p) <==> |p| > 1
  {
    RenderShape(p);
    var parent, k := Render(p[..|p| - 1]), p[|p| - 1].k;
    assert LegibleKey(k);
    if |p| > 1 {
      assert Render(p)[|parent|] == '.';
    }
  }

  lemma SameKeys(p: Path, q: Path)
    requires p != [] && q != [] && Legible(p) && Legible(q) && Render(p) == Render(q)
    requires p[|p| - 1].Key? && q[|q| - 1].Key?
    ensures p[|p| - 1] == q[|q| - 1] && Render(p[..|p| - 1]) == Render(q[..|q| - 1])
  {
    RenderShape(p);
    RenderShape(q);
    DotShows(p);
    DotShows(q);
    var pf, qf, k, l := Render(p[..|p| - 1]), Render(q[..|q| - 1]), p[|p| - 1].k, q[|q| - 1].k;
    assert LegibleKey(k) && LegibleKey(l);
    if |p| > 1 {
      assert pf + ("." + k) == pf + "." + k && qf + ("." + l) == qf + "." + l;
      SplitAtDot(pf, k, qf, l);
    }
  }

  lemma SameIndexes(p: Path, q: Path, n: nat)
    requires p != [] && q != [] && Legible(p) && Legible(q) && Render(p) == Render(q) && p[|p| - 1] == Index(n)
    ensures q[|q| - 1] == Index(n) && Render(p[..|p| - 1]) == Render(q[..|q| - 1])
  {
    RenderShape(p);
    RenderShape(q);
    LastStepShows(p, n);
    LastStepShows(q, n);
    var pf, qf := Render(p[..|p| - 1]), Render(q[..|q| - 1]);
    assert pf == Render(p)[..|Render(p)| - |Brackets(n)|] && qf == Render(q)[..|Render(q)| - |Brackets(n)|];
  }

  lemma {:induction false} LegibleInjective(p: Path, q: Path)
    requires Legible(p) && Legible(q) && Render(p) == Render(q)
    ensures p == q
    decreases |p|
  {
    if p == [] {
      if q != [] { RenderShape(q); }
    } else if q == [] {
      RenderShape(p);
    } else {
      var pf, ps, qf, qs := p[..|p| - 1], p[|p| - 1], q[..|q| - 1], q[|q| - 1];
      if ps.Index? {
        SameIndexes(p, q, ps.i);
      } else if qs.Index? {
        SameIndexes(q, p, qs.i);
      } else {
        SameKeys(p, q);
      }
      LegibleInjective(pf, qf);
      assert p == pf + [ps] && q == qf + [qs];
    }
  }

  // ----- exactly when paths can be told apart ------------------------------------------------

  ghost predicate Over(p: Path, keys: iset<string>) {
    forall i | 0 <= i < |p| && p[i].Key? :: p[i].k in keys
  }

  /** Keys are not empty, and any stretch of a key is a key. */
  ghost predicate Closed(keys: iset<string>) {
    forall k | k in keys :: k != "" && forall i, j | 0 <= i < j <= |k| :: k[i..j] in keys
  }

  /** Different paths over these keys print differently. */
  ghost predicate Distinguished(keys: iset<string>) {
    forall p, q | Over(p, keys) && Over(q, keys) && Render(p) == Render(q) :: p == q
  }

  /** No key holds a dot, and none looks like an index. */
  ghost predicate Clean(keys: iset<string>) {
    forall k | k in keys :: '.' !in k && forall n: nat :: k != Brackets(n)
  }

  lemma CleanIsLegible(keys: iset<string>, k: string)
    requires Closed(keys) && Clean(keys) && k in keys
    ensures LegibleKey(k)
  {
    forall n: nat ensures !EndsWith(k, Brackets(n)) {
      var at := |k| - |Brackets(n)|;
      assert at >= 0 ==> k[at..|k|] in keys && k[at..|k|] == k[at..];
    }
  }

  lemma CleanIsDistinguished(keys: iset<string>)
    requires Closed(keys) && Clean(keys)
    ensures Distinguished(keys)
  {
    forall p: Path | Over(p, keys) ensures Legible(p) {
      forall i | 0 <= i < |p| && p[i].Key? ensures LegibleKey(p[i].k) {
        CleanIsLegible(keys, p[i].k);
      }
    }
    forall p, q | Over(p, keys) && Over(q, keys) && Render(p) == Render(q) ensures p == q {
      LegibleInjective(p, q);
    }
  }

  /** A dot prints like the root. */
  lemma DotPrintsNothing()
    ensures Render([Key(".")]) == Render([])
  {
    KeyRender(".");
    assert "."[1..] == "";
  }

  /** A key of the form "[n]" prints like the index n. */
  lemma BracketsPrintAsIndex(n: nat)
    ensures Render([Key(Brackets(n))]) == Render([Index(n)])
  {
    KeyRender(Brackets(n));
    IndexRender(n);
  }

  lemma DistinguishedIsClean(keys: iset<string>, k: string)
    requires Closed(keys) && Distinguished(keys) && k in keys
    ensures '.' !in k && forall n: nat :: k != Brackets(n)
  {
    DotPrintsNothing();
    assert Over([], keys);
    forall i | 0 <= i < |k| ensures k[i] != '.' {
      assert k[i..i + 1] == [k[i]] && k[i..i + 1] in keys;
      assert Over([Key([k[i]])], keys);
    }
    forall n: nat ensures k != Brackets(n) {
      BracketsPrintAsIndex(n);
      assert Over([Key(k)], keys) && Over([Index(n)], keys);
      assert [Key(k)][0] != [Index(n)][0];
    }
  }

  /** Paths over a closed set of keys can be told apart by their printed form exactly when no key holds a dot and
      none is an index in brackets. */
  lemma RenderInjectiveExact(keys: iset<string>)
    requires Closed(keys)
    ensures Distinguished(keys) <==> Clean(keys)
  {
    if Clean(keys) {
      CleanIsDistinguished(keys);
    }
    if Distinguished(keys) {
      forall k | k in keys ensures '.' !in k && forall n: nat :: k != Brackets(n) {
        DistinguishedIsClean(keys, k);
      }
    }
  }
}
