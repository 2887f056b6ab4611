/** The structural diff of two JSON values: empty exactly on equality, and otherwise the list of all
    disagreements, each under its own path. */
module Diffing {
  import opened Outcomes
  import opened Values
  import opened KeyOrder

  // ----- the structural diff -----------------------------------------------------------------

  datatype Step = Key(k: string) | Index(i: nat)

  type Path = seq<Step>

  datatype Detail =
    | TypeDiffers
    | MissingInSpec
    | UnexpectedInSpec
    | LengthDiffers(manifest: nat, spec: nat)
    | ValueDiffers

  datatype Diff = Diff(path: Path, detail: Detail)

  datatype TypeName = NoneType | BoolType | IntType | FloatType | StrType | ListType | DictType

  function TypeOf(v: Value): TypeName {
    match v
    case Null => NoneType
    case Bool(_) => BoolType
    case Int(_) => IntType
    case Flt(_) => FloatType
    case Str(_) => StrType
    case List(_) => ListType
    case Dict(_) => DictType
  }

  predicate Comparable(e: Value, a: Value) {
    TypeOf(e) == TypeOf(a) || (Number(e).Some? && Number(a).Some?)
  }

  function KeyDiffs(path: Path, ks: seq<string>, detail: Detail): (ds: seq<Diff>)
    ensures |ds| == |ks| && forall i | 0 <= i < |ks| :: ds[i] == Diff(path + [Key(ks[i])], detail)
  {
    seq(|ks|, i requires 0 <= i < |ks| => Diff(path + [Key(ks[i])], detail))
  }

  function MissingKeys(e: Value, a: Value): (ks: seq<string>)
    requires e.Dict? && a.Dict?
    ensures Sorted(ks) && forall k :: k in ks <==> k in e.fields && k !in a.fields
  {
    SortedKeys(e.fields.Keys - a.fields.Keys)
  }

  function CommonKeys(e: Value, a: Value): (ks: seq<string>)
    requires e.Dict? && a.Dict?
    ensures Sorted(ks) && forall k :: k in ks <==> k in e.fields && k in a.fields
    ensures AreCommon(e, a, ks)
  {
    SortedKeys(e.fields.Keys * a.fields.Keys)
  }

  predicate AreCommon(e: Value, a: Value, ks: seq<string>)
    requires e.Dict? && a.Dict?
  {
    forall i | 0 <= i < |ks| :: ks[i] in e.fields && ks[i] in a.fields
  }

  /** _diff_paths, with the path kept as a list of steps. */
  function DiffPaths(e: Value, a: Value, path: Path): seq<Diff>
    decreases e, 1, 0
  {
    if !Comparable(e, a) then [Diff(path, TypeDiffers)]
    else if e.Dict? then
      KeyDiffs(path, MissingKeys(e, a), MissingInSpec)
      + KeyDiffs(path, MissingKeys(a, e), UnexpectedInSpec)
      + FieldDiffs(e, a, CommonKeys(e, a), path)
    else if e.List? then
      (if |e.items| != |a.items| then [Diff(path, LengthDiffers(|e.items|, |a.items|))] else [])
      + ItemDiffs(e, a, 0, path)
    else if !Equal(e, a) then [Diff(path, ValueDiffers)]
    else []
  }

  /** The differences below the common keys ks. */
  function FieldDiffs(e: Value, a: Value, ks: seq<string>, path: Path): seq<Diff>
    requires e.Dict? && a.Dict? && AreCommon(e, a, ks)
    decreases e, 0, |ks|
  {
    if ks == [] then []
    else DiffPaths(e.fields[ks[0]], a.fields[ks[0]], path + [Key(ks[0])]) + FieldDiffs(e, a, ks[1..], path)
  }

  function MinLength(e: Value, a: Value): nat
    requires e.List? && a.List?
  {
    if |e.items| <= |a.items| then |e.items| else |a.items|
  }

  /** The differences below the common indices from i on. */
  function ItemDiffs(e: Value, a: Value, i: nat, path: Path): seq<Diff>
    requires e.List? && a.List? && i <= MinLength(e, a)
    decreases e, 0, MinLength(e, a) - i
  {
    if i == MinLength(e, a) then []
    else DiffPaths(e.items[i], a.items[i], path + [Index(i)]) + ItemDiffs(e, a, i + 1, path)
  }

  // ----- empty exactly on equality -----------------------------------------------------------

  /** The diff is empty exactly when the values are equal and no NaN occurs in them: two NaN count
      as the same member of a container, but the leaf comparison still reports them. */
  lemma {:induction false} DiffEmptyExact(e: Value, a: Value, path: Path)
    ensures DiffPaths(e, a, path) == [] <==> Same(e, a) && !HasNaN(e)
    decreases e, 1, 0
  {
    if e.Dict? && a.Dict? {
      FieldsEmptyExact(e, a, CommonKeys(e, a), path);
      DictEmptyExact(e, a, path);
    } else if e.List? && a.List? {
      ItemsEmptyExact(e, a, 0, path);
      ListEmptyExact(e, a, path);
    } else {
      LeafEmptyExact(e, a, path);
    }
  }

  /** It makes no difference to the verdict which of the two sides is taken as the manifest. */
  lemma DiffEmptySymmetric(e: Value, a: Value, path: Path)
    ensures DiffPaths(e, a, path) == [] <==> DiffPaths(a, e, path) == []
  {
    DiffEmptyExact(e, a, path);
    DiffEmptyExact(a, e, path);
    if Same(e, a) {
      SameSym(e, a);
      SameNaN(e, a);
    }
    if Same(a, e) {
      SameSym(a, e);
      SameNaN(a, e);
    }
  }

  lemma LeafEmptyExact(e: Value, a: Value, path: Path)
    requires !(e.Dict? && a.Dict?) && !(e.List? && a.List?)
    ensures DiffPaths(e, a, path) == [] <==> Same(e, a) && !HasNaN(e)
  {
    LeafDiffs(e, a, path);
    LeafSame(e, a);
  }

  lemma LeafSame(e: Value, a: Value)
    requires !(e.Dict? && a.Dict?) && !(e.List? && a.List?)
    ensures Comparable(e, a) && Equal(e, a) <==> Same(e, a) && !HasNaN(e)
  {
    match e
    case List(_) =>
    case Dict(_) =>
    case _ =>
  }

  predicate SameItem(e: Value, a: Value, j: nat)
    requires e.List? && a.List? && j < MinLength(e, a)
  {
    Same(e.items[j], a.items[j]) && !HasNaN(e.items[j])
  }

  lemma ListEmptyExact(e: Value, a: Value, path: Path)
    requires e.List? && a.List?
    requires ItemDiffs(e, a, 0, path) == [] <==>
             forall j | 0 <= j < MinLength(e, a) :: SameItem(e, a, j)
    ensures DiffPaths(e, a, path) == [] <==> Same(e, a) && !HasNaN(e)
  {
    if |e.items| == |a.items| {
      forall j | 0 <= j < |e.items|
        ensures SameItem(e, a, j) <==> Same(e.items[j], a.items[j]) && !HasNaN(e.items[j])
      {
      }
      assert |e.items| == MinLength(e, a);
    }
  }

  lemma {:induction false} FieldsEmptyExact(e: Value, a: Value, ks: seq<string>, path: Path)
    requires e.Dict? && a.Dict? && AreCommon(e, a, ks)
    ensures FieldDiffs(e, a, ks, path) == [] <==>
            forall k | k in ks :: Same(e.fields[k], a.fields[k]) && !HasNaN(e.fields[k])
    decreases e, 0, |ks|
  {
    if ks != [] {
      DiffEmptyExact(e.fields[ks[0]], a.fields[ks[0]], path + [Key(ks[0])]);
      FieldsEmptyExact(e, a, ks[1..], path);
    }
  }

  lemma NoLoneKeys(e: Value, a: Value)
    requires e.Dict? && a.Dict?
    ensures MissingKeys(e, a) == [] && MissingKeys(a, e) == [] <==> e.fields.Keys == a.fields.Keys
  {
    var missing, extra := MissingKeys(e, a), MissingKeys(a, e);
    if missing != [] { assert missing[0] in missing; }
    if extra != [] { assert extra[0] in extra; }
    if e.fields.Keys != a.fields.Keys {
      var k :| (k in e.fields) != (k in a.fields);
      assert k in missing || k in extra;
    }
  }

  lemma DictEmptyExact(e: Value, a: Value, path: Path)
    requires e.Dict? && a.Dict?
    requires FieldDiffs(e, a, CommonKeys(e, a), path) == [] <==>
             forall k | k in CommonKeys(e, a) :: Same(e.fields[k], a.fields[k]) && !HasNaN(e.fields[k])
    ensures DiffPaths(e, a, path) == [] <==> Same(e, a) && !HasNaN(e)
  {
    NoLoneKeys(e, a);
    assert DiffPaths(e, a, path) == [] <==>
           MissingKeys(e, a) == [] && MissingKeys(a, e) == [] && FieldDiffs(e, a, CommonKeys(e, a), path) == [];
    assert e.fields.Keys == a.fields.Keys ==>
           forall k :: k in CommonKeys(e, a) <==> k in e.fields;
  }

  lemma {:induction false} ItemsEmptyExact(e: Value, a: Value, i: nat, path: Path)
    requires e.List? && a.List? && i <= MinLength(e, a)
    ensures ItemDiffs(e, a, i, path) == [] <==>
            forall j | i <= j < MinLength(e, a) :: SameItem(e, a, j)
    decreases e, 0, MinLength(e, a) - i
  {
    if i < MinLength(e, a) {
      DiffEmptyExact(e.items[i], a.items[i], path + [Index(i)]);
      ItemsEmptyExact(e, a, i + 1, path);
      assert (forall j | i <= j < MinLength(e, a) :: SameItem(e, a, j)) <==>
             SameItem(e, a, i) && forall j | i + 1 <= j < MinLength(e, a) :: SameItem(e, a, j);
    }
  }

  // ----- every report is a real disagreement, and every disagreement is reported -------------

  function Lookup(v: Value, p: Path): Option<Value>
    decreases |p|
  {
    if p == [] then Some(v)
    else
      match p[0]
      case Key(k) => if v.Dict? && k in v.fields then Lookup(v.fields[k], p[1..]) else None
      case Index(i) => if v.List? && i < |v.items| then Lookup(v.items[i], p[1..]) else None
  }

  /** Only values of one kind are compared, where all numbers are of one kind. */
  lemma ComparableExact(e: Value, a: Value)
    ensures Comparable(e, a) <==>
            || (e.Null? && a.Null?) || (e.Str? && a.Str?) || (e.List? && a.List?) || (e.Dict? && a.Dict?)
            || (IsNumber(e) && IsNumber(a))
  {
  }

  /** A value holds a NaN exactly when some path leads to one. */
  lemma {:induction false} NaNExact(v: Value)
    ensures HasNaN(v) <==> exists p :: Lookup(v, p) == Some(Flt(NaN))
    decreases v
  {
    if HasNaN(v) {
      var p := NaNPath(v);
    }
    if p :| Lookup(v, p) == Some(Flt(NaN)) {
      NaNFound(v, p);
    }
  }

  lemma {:induction false} NaNPath(v: Value) returns (p: Path)
    requires HasNaN(v)
    ensures Lookup(v, p) == Some(Flt(NaN))
    decreases v
  {
    match v
    case List(items) =>
      var i :| 0 <= i < |items| && HasNaN(items[i]);
      var q := NaNPath(items[i]);
      p := [Index(i)] + q;
      LookupStep(v, Index(i), q);
    case Dict(fields) =>
      var k :| k in fields && HasNaN(fields[k]);
      var q := NaNPath(fields[k]);
      p := [Key(k)] + q;
      LookupStep(v, Key(k), q);
    case _ =>
      p := [];
  }

  lemma {:induction false} NaNFound(v: Value, p: Path)
    requires Lookup(v, p) == Some(Flt(NaN))
    ensures HasNaN(v)
    decreases |p|
  {
    if p != [] {
      var c := Child(v, p[0]);
      assert p == [p[0]] + p[1..];
      LookupStep(v, p[0], p[1..]);
      NaNFound(c.value, p[1..]);
    }
  }

  /** Path p leads into x but its last step, a key of a dict both sides have, leads nowhere in y. */
  predicate OnlyIn(x: Value, y: Value, p: Path) {
    && p != [] && Lookup(x, p).Some? && Lookup(y, p).None?
    && p[|p| - 1].Key? && Lookup(y, p[..|p| - 1]).Some? && Lookup(y, p[..|p| - 1]).value.Dict?
  }

  /** What a report claims, said of the two values by following its path. */
  predicate Disagree(e: Value, a: Value, p: Path, d: Detail) {
    var x, y := Lookup(e, p), Lookup(a, p);
    match d
    case MissingInSpec => OnlyIn(e, a, p)
    case UnexpectedInSpec => OnlyIn(a, e, p)
    case TypeDiffers => x.Some? && y.Some? && !Comparable(x.value, y.value)
    case LengthDiffers(m, n) =>
      x.Some? && y.Some? && x.value.List? && y.value.List? && m == |x.value.items| != |y.value.items| == n
    case ValueDiffers =>
      && x.Some? && y.Some? && Comparable(x.value, y.value) && !Equal(x.value, y.value)
      && !x.value.Dict? && !x.value.List?
  }

  /** Report d, of a diff started at path, is about the values e and a found there. */
  predicate Truthful(e: Value, a: Value, path: Path, d: Diff) {
    path <= d.path && Disagree(e, a, d.path[|path|..], d.detail)
  }

  function Child(v: Value, s: Step): Option<Value> {
    match s
    case Key(k) => if v.Dict? && k in v.fields then Some(v.fields[k]) else None
    case Index(i) => if v.List? && i < |v.items| then Some(v.items[i]) else None
  }

  lemma LookupStep(v: Value, s: Step, p: Path)
    ensures Lookup(v, [s] + p) == match Child(v, s) case None => None case Some(c) => Lookup(c, p)
  {
    assert ([s] + p)[1..] == p;
  }

  lemma OnlyInStep(x: Value, y: Value, s: Step, p: Path)
    ensures OnlyIn(x, y, [s] + p) <==>
            if p == [] then s.Key? && Child(x, s).Some? && Child(y, s).None? && y.Dict?
            else Child(x, s).Some? && Child(y, s).Some? && OnlyIn(Child(x, s).value, Child(y, s).value, p)
  {
    var q := [s] + p;
    LookupStep(x, s, p);
    LookupStep(y, s, p);
    if p == [] {
      assert q[|q| - 1] == s && q[..|q| - 1] == [];
    } else {
      assert q[..|q| - 1] == [s] + p[..|p| - 1];
      LookupStep(y, s, p[..|p| - 1]);
      assert q[|q| - 1] == p[|p| - 1];
    }
  }

  /** A disagreement one step down is a key only one side has, or a disagreement of the children. */
  lemma DisagreeStep(e: Value, a: Value, s: Step, p: Path, d: Detail)
    ensures Disagree(e, a, [s] + p, d) <==>
            || (Child(e, s).Some? && Child(a, s).Some? && Disagree(Child(e, s).value, Child(a, s).value, p, d))
            || (p == [] && s.Key? && d == MissingInSpec && Child(e, s).Some? && Child(a, s).None? && a.Dict?)
            || (p == [] && s.Key? && d == UnexpectedInSpec && Child(a, s).Some? && Child(e, s).None? && e.Dict?)
  {
    OnlyInStep(e, a, s, p);
    OnlyInStep(a, e, s, p);
    LookupStep(e, s, p);
    LookupStep(a, s, p);
  }

  lemma TruthfulStep(e: Value, a: Value, path: Path, s: Step, d: Diff)
    requires path + [s] <= d.path
    ensures Truthful(e, a, path, d) <==>
            || (Child(e, s).Some? && Child(a, s).Some? && Truthful(Child(e, s).value, Child(a, s).value, path + [s], d))
            || (d == Diff(path + [s], MissingInSpec) && s.Key? && Child(e, s).Some? && Child(a, s).None? && a.Dict?)
            || (d == Diff(path + [s], UnexpectedInSpec) && s.Key? && Child(a, s).Some? && Child(e, s).None? && e.Dict?)
  {
    var p := d.path[|path| + 1..];
    assert d.path[|path|] == (path + [s])[|path|];
    assert d.path[|path|..] == [s] + p;
    assert d.path == path + [s] + p;
    DisagreeStep(e, a, s, p, d.detail);
  }

  predicate TruthfulField(e: Value, a: Value, path: Path, k: string, d: Diff) {
    e.Dict? && a.Dict? && k in e.fields && k in a.fields && Truthful(e.fields[k], a.fields[k], path + [Key(k)], d)
  }

  predicate TruthfulItem(e: Value, a: Value, path: Path, i: nat, d: Diff) {
    e.List? && a.List? && i < MinLength(e, a) && Truthful(e.items[i], a.items[i], path + [Index(i)], d)
  }

  /** The reports are exactly the disagreements: nothing is invented and nothing is missed. */
  lemma {:induction false} DiffExact(e: Value, a: Value, path: Path, d: Diff)
    ensures d in DiffPaths(e, a, path) <==> Truthful(e, a, path, d)
    decreases e, 1, 0
  {
    if e.Dict? && a.Dict? {
      FieldsExact(e, a, CommonKeys(e, a), path, d);
      DictExact(e, a, path, d);
    } else if e.List? && a.List? {
      ItemsExact(e, a, 0, path, d);
      ListExact(e, a, path, d);
    } else {
      LeafExact(e, a, path, d);
    }
  }

  lemma {:induction false} FieldsExact(e: Value, a: Value, ks: seq<string>, path: Path, d: Diff)
    requires e.Dict? && a.Dict? && AreCommon(e, a, ks)
    ensures d in FieldDiffs(e, a, ks, path) <==> exists i | 0 <= i < |ks| :: TruthfulField(e, a, path, ks[i], d)
    decreases e, 0, |ks|
  {
    if ks != [] {
      DiffExact(e.fields[ks[0]], a.fields[ks[0]], path + [Key(ks[0])], d);
      FieldsExact(e, a, ks[1..], path, d);
      assert d in FieldDiffs(e, a, ks, path) <==>
             TruthfulField(e, a, path, ks[0], d) || d in FieldDiffs(e, a, ks[1..], path);
      if exists i | 0 <= i < |ks[1..]| :: TruthfulField(e, a, path, ks[1..][i], d) {
        var i :| 0 <= i < |ks[1..]| && TruthfulField(e, a, path, ks[1..][i], d);
        assert TruthfulField(e, a, path, ks[i + 1], d);
      }
      if exists i | 0 < i < |ks| :: TruthfulField(e, a, path, ks[i], d) {
        var i :| 0 < i < |ks| && TruthfulField(e, a, path, ks[i], d);
        assert TruthfulField(e, a, path, ks[1..][i - 1], d);
      }
    }
  }

  lemma {:induction false} ItemsExact(e: Value, a: Value, i: nat, path: Path, d: Diff)
    requires e.List? && a.List? && i <= MinLength(e, a)
    ensures d in ItemDiffs(e, a, i, path) <==> exists j: nat | i <= j :: TruthfulItem(e, a, path, j, d)
    decreases e, 0, MinLength(e, a) - i
  {
    if i < MinLength(e, a) {
      DiffExact(e.items[i], a.items[i], path + [Index(i)], d);
      ItemsExact(e, a, i + 1, path, d);
      assert d in ItemDiffs(e, a, i, path) <==>
             TruthfulItem(e, a, path, i, d) || d in ItemDiffs(e, a, i + 1, path);
    }
  }

  lemma InKeyDiffs(path: Path, ks: seq<string>, detail: Detail, d: Diff)
    ensures d in KeyDiffs(path, ks, detail) <==> exists k | k in ks :: d == Diff(path + [Key(k)], detail)
  {
    if exists k | k in ks :: d == Diff(path + [Key(k)], detail) {
      var k :| k in ks && d == Diff(path + [Key(k)], detail);
      var i :| 0 <= i < |ks| && ks[i] == k;
      assert KeyDiffs(path, ks, detail)[i] == d;
    }
  }

  lemma TruthfulHere(e: Value, a: Value, path: Path, d: Diff)
    requires d.path == path
    ensures Truthful(e, a, path, d) <==>
            match d.detail
            case TypeDiffers => !Comparable(e, a)
            case LengthDiffers(m, n) => e.List? && a.List? && m == |e.items| != |a.items| == n
            case ValueDiffers => Comparable(e, a) && !Equal(e, a) && !e.Dict? && !e.List?
            case _ => false
  {
    assert d.path[|path|..] == [];
  }

  lemma NextStep(path: Path, d: Diff) returns (s: Step)
    requires path < d.path
    ensures path + [s] <= d.path
  {
    s := d.path[|path|];
  }

  lemma LeafIsPlain(e: Value, a: Value)
    requires !(e.Dict? && a.Dict?) && !(e.List? && a.List?) && Comparable(e, a)
    ensures !e.Dict? && !e.List?
  {
  }

  /** Two values that are not both dicts and not both lists differ as a whole or not at all. */
  lemma LeafDiffs(e: Value, a: Value, path: Path)
    requires !(e.Dict? && a.Dict?) && !(e.List? && a.List?)
    ensures DiffPaths(e, a, path)
         == if !Comparable(e, a) then [Diff(path, TypeDiffers)]
            else if !Equal(e, a) then [Diff(path, ValueDiffers)] else []
    ensures Comparable(e, a) ==> !e.Dict? && !e.List?
  {
    if Comparable(e, a) {
      LeafIsPlain(e, a);
    }
  }

  lemma NoLeafBelow(e: Value, a: Value, path: Path, d: Diff)
    requires !(e.Dict? && a.Dict?) && !(e.List? && a.List?) && d.path != path
    ensures !Truthful(e, a, path, d)
  {
    if path < d.path {
      var s := NextStep(path, d);
      TruthfulStep(e, a, path, s, d);
    }
  }

  lemma LeafExact(e: Value, a: Value, path: Path, d: Diff)
    requires !(e.Dict? && a.Dict?) && !(e.List? && a.List?)
    ensures d in DiffPaths(e, a, path) <==> Truthful(e, a, path, d)
  {
    LeafDiffs(e, a, path);
    if d.path == path {
      TruthfulHere(e, a, path, d);
    } else {
      NoLeafBelow(e, a, path, d);
    }
  }

  predicate LoneKey(x: Value, y: Value, path: Path, k: string, detail: Detail, d: Diff) {
    x.Dict? && y.Dict? && k in x.fields && k !in y.fields && d == Diff(path + [Key(k)], detail)
  }

  /** A true report about two dicts is about a common key or about a key of only one of them. */
  ghost predicate DictReport(e: Value, a: Value, path: Path, d: Diff) {
    || (exists k :: TruthfulField(e, a, path, k, d))
    || (exists k :: LoneKey(e, a, path, k, MissingInSpec, d))
    || (exists k :: LoneKey(a, e, path, k, UnexpectedInSpec, d))
  }

  lemma DictTruth(e: Value, a: Value, path: Path, d: Diff)
    requires e.Dict? && a.Dict?
    ensures Truthful(e, a, path, d) <==> DictReport(e, a, path, d)
  {
    if Truthful(e, a, path, d) {
      if d.path == path {
        TruthfulHere(e, a, path, d);
      } else {
        var s := NextStep(path, d);
        TruthfulStep(e, a, path, s, d);
        assert s.Key?;
        assert TruthfulField(e, a, path, s.k, d) || LoneKey(e, a, path, s.k, MissingInSpec, d)
               || LoneKey(a, e, path, s.k, UnexpectedInSpec, d);
      }
    }
    forall k | TruthfulField(e, a, path, k, d) ensures Truthful(e, a, path, d) {
      TruthfulStep(e, a, path, Key(k), d);
    }
    forall k | LoneKey(e, a, path, k, MissingInSpec, d) ensures Truthful(e, a, path, d) {
      TruthfulStep(e, a, path, Key(k), d);
    }
    forall k | LoneKey(a, e, path, k, UnexpectedInSpec, d) ensures Truthful(e, a, path, d) {
      TruthfulStep(e, a, path, Key(k), d);
    }
  }

  lemma DictMembers(e: Value, a: Value, path: Path, d: Diff)
    requires e.Dict? && a.Dict?
    ensures d in DiffPaths(e, a, path) <==>
            || d in KeyDiffs(path, MissingKeys(e, a), MissingInSpec)
            || d in KeyDiffs(path, MissingKeys(a, e), UnexpectedInSpec)
            || d in FieldDiffs(e, a, CommonKeys(e, a), path)
  {
  }

  lemma FieldsReported(e: Value, a: Value, path: Path, d: Diff)
    requires e.Dict? && a.Dict?
    ensures (exists i | 0 <= i < |CommonKeys(e, a)| :: TruthfulField(e, a, path, CommonKeys(e, a)[i], d))
            <==> exists k :: TruthfulField(e, a, path, k, d)
  {
    var ks := CommonKeys(e, a);
    if k :| TruthfulField(e, a, path, k, d) {
      assert k in ks;
    }
  }

  lemma DictExact(e: Value, a: Value, path: Path, d: Diff)
    requires e.Dict? && a.Dict?
    requires var ks := CommonKeys(e, a);
             d in FieldDiffs(e, a, ks, path) <==> exists i | 0 <= i < |ks| :: TruthfulField(e, a, path, ks[i], d)
    ensures d in DiffPaths(e, a, path) <==> Truthful(e, a, path, d)
  {
    DictMembers(e, a, path, d);
    DictTruth(e, a, path, d);
    LoneKeysExact(e, a, path, MissingInSpec, d);
    LoneKeysExact(a, e, path, UnexpectedInSpec, d);
    FieldsReported(e, a, path, d);
  }

  lemma LoneKeysExact(x: Value, y: Value, path: Path, detail: Detail, d: Diff)
    requires x.Dict? && y.Dict?
    ensures d in KeyDiffs(path, MissingKeys(x, y), detail) <==> exists k :: LoneKey(x, y, path, k, detail, d)
  {
    InKeyDiffs(path, MissingKeys(x, y), detail, d);
    if exists k :: LoneKey(x, y, path, k, detail, d) {
      var k :| LoneKey(x, y, path, k, detail, d);
      assert k in MissingKeys(x, y);
    }
    if exists k | k in MissingKeys(x, y) :: d == Diff(path + [Key(k)], detail) {
      var k :| k in MissingKeys(x, y) && d == Diff(path + [Key(k)], detail);
      assert LoneKey(x, y, path, k, detail, d);
    }
  }

  lemma ListTruth(e: Value, a: Value, path: Path, d: Diff)
    requires e.List? && a.List?
    ensures Truthful(e, a, path, d) <==>
            || (|e.items| != |a.items| && d == Diff(path, LengthDiffers(|e.items|, |a.items|)))
            || exists j: nat :: TruthfulItem(e, a, path, j, d)
  {
    if d.path == path {
      TruthfulHere(e, a, path, d);
      assert forall j: nat :: !TruthfulItem(e, a, path, j, d);
    } else if path < d.path {
      var s := NextStep(path, d);
      TruthfulStep(e, a, path, s, d);
      if Truthful(e, a, path, d) {
        assert s.Index?;
        assert TruthfulItem(e, a, path, s.i, d);
      }
      if exists j: nat :: TruthfulItem(e, a, path, j, d) {
        var j: nat :| TruthfulItem(e, a, path, j, d);
        assert s == Index(j);
      }
    }
  }

  lemma ListExact(e: Value, a: Value, path: Path, d: Diff)
    requires e.List? && a.List?
    requires d in ItemDiffs(e, a, 0, path) <==> exists j: nat | 0 <= j :: TruthfulItem(e, a, path, j, d)
    ensures d in DiffPaths(e, a, path) <==> Truthful(e, a, path, d)
  {
    ListTruth(e, a, path, d);
  }

  // ----- no place is reported twice ----------------------------------------------------------

  predicate DistinctPaths(ds: seq<Diff>) {
    forall i, j | 0 <= i < j < |ds| :: ds[i].path != ds[j].path
  }

  /** Every report of ds goes on from path with one of the steps in ss. */
  predicate Under(path: Path, ss: set<Step>, ds: seq<Diff>) {
    forall i | 0 <= i < |ds| :: |path| < |ds[i].path| && ds[i].path[|path|] in ss
  }

  lemma UnderJoin(path: Path, ss: set<Step>, x: seq<Diff>, ts: set<Step>, y: seq<Diff>)
    requires Under(path, ss, x) && Under(path, ts, y) && ss !! ts && DistinctPaths(x) && DistinctPaths(y)
    ensures Under(path, ss + ts, x + y) && DistinctPaths(x + y)
  {
    var z := x + y;
    forall i, j | 0 <= i < j < |z| ensures z[i].path != z[j].path {
      if i < |x| <= j {
        assert z[i] == x[i] && z[j] == y[j - |x|];
      }
    }
  }

  function KeySteps(ks: seq<string>): set<Step> {
    set k | k in ks :: Key(k)
  }

  lemma KeyDiffsUnder(path: Path, ks: seq<string>, detail: Detail)
    requires Sorted(ks)
    ensures Under(path, KeySteps(ks), KeyDiffs(path, ks, detail)) && DistinctPaths(KeyDiffs(path, ks, detail))
  {
    SortedDistinct(ks);
    var ds := KeyDiffs(path, ks, detail);
    forall i, j | 0 <= i < j < |ds| ensures ds[i].path != ds[j].path {
      assert ds[i].path[|path|] == Key(ks[i]) && ds[j].path[|path|] == Key(ks[j]);
    }
  }

  lemma DiffsBelow(e: Value, a: Value, path: Path, s: Step)
    ensures Under(path, {s}, DiffPaths(e, a, path + [s]))
  {
    var ds := DiffPaths(e, a, path + [s]);
    forall i | 0 <= i < |ds| ensures |path| < |ds[i].path| && ds[i].path[|path|] == s {
      DiffExact(e, a, path + [s], ds[i]);
      assert (path + [s])[|path|] == s;
    }
  }

  lemma LoneKeysDistinct(e: Value, a: Value, path: Path)
    requires e.Dict? && a.Dict?
    ensures var ds := KeyDiffs(path, MissingKeys(e, a), MissingInSpec) + KeyDiffs(path, MissingKeys(a, e), UnexpectedInSpec);
            Under(path, KeySteps(MissingKeys(e, a)) + KeySteps(MissingKeys(a, e)), ds) && DistinctPaths(ds)
  {
    var missing, extra := MissingKeys(e, a), MissingKeys(a, e);
    KeyDiffsUnder(path, missing, MissingInSpec);
    KeyDiffsUnder(path, extra, UnexpectedInSpec);
    StepsApart(missing, extra);
    UnderJoin(path, KeySteps(missing), KeyDiffs(path, missing, MissingInSpec),
              KeySteps(extra), KeyDiffs(path, extra, UnexpectedInSpec));
  }

  lemma StepsApart(ks: seq<string>, ls: seq<string>)
    requires forall k | k in ks :: k !in ls
    ensures KeySteps(ks) !! KeySteps(ls)
  {
  }

  lemma JoinApart(x: set<Step>, y: set<Step>, z: set<Step>)
    requires x !! z && y !! z
    ensures x + y !! z
  {
  }

  lemma DictDistinct(e: Value, a: Value, path: Path)
    requires e.Dict? && a.Dict?
    requires var common := CommonKeys(e, a);
             Under(path, KeySteps(common), FieldDiffs(e, a, common, path)) && DistinctPaths(FieldDiffs(e, a, common, path))
    ensures DistinctPaths(DiffPaths(e, a, path))
  {
    var missing, extra, common := MissingKeys(e, a), MissingKeys(a, e), CommonKeys(e, a);
    LoneKeysDistinct(e, a, path);
    StepsApart(missing, common);
    StepsApart(extra, common);
    JoinApart(KeySteps(missing), KeySteps(extra), KeySteps(common));
    UnderJoin(path, KeySteps(missing) + KeySteps(extra),
              KeyDiffs(path, missing, MissingInSpec) + KeyDiffs(path, extra, UnexpectedInSpec),
              KeySteps(common), FieldDiffs(e, a, common, path));
  }

  lemma ListDistinct(e: Value, a: Value, path: Path, ss: set<Step>)
    requires e.List? && a.List?
    requires Under(path, ss, ItemDiffs(e, a, 0, path)) && DistinctPaths(ItemDiffs(e, a, 0, path))
    ensures DistinctPaths(DiffPaths(e, a, path))
  {
    var items, ds := ItemDiffs(e, a, 0, path), DiffPaths(e, a, path);
    if |e.items| != |a.items| {
      assert ds == [Diff(path, LengthDiffers(|e.items|, |a.items|))] + items;
      forall i, j | 0 <= i < j < |ds| ensures ds[i].path != ds[j].path {
        assert ds[j] == items[j - 1];
        assert i > 0 ==> ds[i] == items[i - 1];
      }
    }
  }

  lemma LeafDistinct(e: Value, a: Value, path: Path)
    requires !(e.Dict? && a.Dict?) && !(e.List? && a.List?)
    ensures DistinctPaths(DiffPaths(e, a, path))
  {
    LeafDiffs(e, a, path);
    ShortDistinct(DiffPaths(e, a, path));
  }

  lemma ShortDistinct(ds: seq<Diff>)
    requires |ds| <= 1
    ensures DistinctPaths(ds)
  {
  }

  /** No two reports share a path. */
  lemma {:induction false} DiffDistinct(e: Value, a: Value, path: Path)
    ensures DistinctPaths(DiffPaths(e, a, path))
    decreases e, 1, 0
  {
    if e.Dict? && a.Dict? {
      FieldsDistinct(e, a, CommonKeys(e, a), path);
      DictDistinct(e, a, path);
    } else if e.List? && a.List? {
      ItemsDistinct(e, a, 0, path);
      ListDistinct(e, a, path, IndexSteps(0, MinLength(e, a)));
    } else {
      LeafDistinct(e, a, path);
    }
  }

  lemma {:induction false} FieldsDistinct(e: Value, a: Value, ks: seq<string>, path: Path)
    requires e.Dict? && a.Dict? && AreCommon(e, a, ks) && Sorted(ks)
    ensures DistinctPaths(FieldDiffs(e, a, ks, path)) && Under(path, KeySteps(ks), FieldDiffs(e, a, ks, path))
    decreases e, 0, |ks|
  {
    if ks != [] {
      SortedDistinct(ks);
      DiffDistinct(e.fields[ks[0]], a.fields[ks[0]], path + [Key(ks[0])]);
      DiffsBelow(e.fields[ks[0]], a.fields[ks[0]], path, Key(ks[0]));
      FieldsDistinct(e, a, ks[1..], path);
      assert KeySteps(ks) == {Key(ks[0])} + KeySteps(ks[1..]);
      UnderJoin(path, {Key(ks[0])}, DiffPaths(e.fields[ks[0]], a.fields[ks[0]], path + [Key(ks[0])]),
                KeySteps(ks[1..]), FieldDiffs(e, a, ks[1..], path));
    }
  }

  function IndexSteps(lo: nat, hi: nat): set<Step> {
    set i | lo <= i < hi :: Index(i)
  }

  lemma {:induction false} ItemsDistinct(e: Value, a: Value, i: nat, path: Path)
    requires e.List? && a.List? && i <= MinLength(e, a)
    ensures DistinctPaths(ItemDiffs(e, a, i, path))
    ensures Under(path, IndexSteps(i, MinLength(e, a)), ItemDiffs(e, a, i, path))
    decreases e, 0, MinLength(e, a) - i
  {
    var n := MinLength(e, a);
    if i < n {
      DiffDistinct(e.items[i], a.items[i], path + [Index(i)]);
      DiffsBelow(e.items[i], a.items[i], path, Index(i));
      ItemsDistinct(e, a, i + 1, path);
      assert IndexSteps(i, n) == {Index(i)} + IndexSteps(i + 1, n);
      UnderJoin(path, {Index(i)}, DiffPaths(e.items[i], a.items[i], path + [Index(i)]),
                IndexSteps(i + 1, n), ItemDiffs(e, a, i + 1, path));
    }
  }
}
