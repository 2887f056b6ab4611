/** sorted() on sets, and the order of strings. */
module KeyOrder {

  ghost predicate StrictTotal<T(!new)>(less: (T, T) -> bool) {
    && (forall x :: !less(x, x))
    && (forall x, y, z :: less(x, y) && less(y, z) ==> less(x, z))
    && (forall x, y :: less(x, y) || less(y, x) || x == y)
  }

  predicate SortedBy<T>(less: (T, T) -> bool, s: seq<T>) {
    forall i, j | 0 <= i < j < |s| :: less(s[i], s[j])
  }

  predicate IsLeast<T(==)>(less: (T, T) -> bool, m: T, s: set<T>) {
    m in s && forall k | k in s && k != m :: less(m, k)
  }

  lemma {:induction false} LeastExists<T(!new)>(less: (T, T) -> bool, s: set<T>)
    requires StrictTotal(less) && s != {}
    ensures exists m :: IsLeast(less, m, s)
    decreases |s|
  {
    var x :| x in s;
    var rest := s - {x};
    assert forall k | k in s :: k == x || k in rest;
    if rest == {} {
      assert IsLeast(less, x, s);
    } else {
      LeastExists(less, rest);
      var m :| IsLeast(less, m, rest);
      assert IsLeast(less, if less(x, m) then x else m, s);
    }
  }

  function Least<T(!new,==)>(less: (T, T) -> bool, s: set<T>): (m: T)
    requires StrictTotal(less) && s != {}
    ensures IsLeast(less, m, s)
  {
    LeastExists(less, s);
    var m :| m in s && IsLeast(less, m, s);
    m
  }

  /** sorted(s), by an order in which no two members tie. */
  function Sort<T(!new,==)>(less: (T, T) -> bool, s: set<T>): (ks: seq<T>)
    requires StrictTotal(less)
    ensures SortedBy(less, ks)
    ensures forall k :: k in ks <==> k in s
    ensures forall i | 0 <= i < |ks| :: ks[i] in s
    decreases |s|
  {
    if s == {} then []
    else
      var m := Least(less, s);
      var rest := Sort(less, s - {m});
      assert forall j | 0 <= j < |rest| :: less(m, rest[j]);
      [m] + rest
  }

  lemma SortDistinct<T(!new)>(less: (T, T) -> bool, s: seq<T>)
    requires StrictTotal(less) && SortedBy(less, s)
    ensures forall i, j | 0 <= i < j < |s| :: s[i] != s[j]
  {
  }

  /** js lists numbers below n in ascending order. */
  predicate Places(js: seq<nat>, n: nat) {
    (forall i, j | 0 <= i < j < |js| :: js[i] < js[j]) && forall i | 0 <= i < |js| :: js[i] < n
  }

  // ----- strings -----------------------------------------------------------------------------

  /** Python's order on strings: code point by code point, a prefix first. */
  predicate StrLess(s: string, t: string) {
    if t == "" then false
    else if s == "" then true
    else s[0] < t[0] || (s[0] == t[0] && StrLess(s[1..], t[1..]))
  }

  lemma {:induction false} StrLessTotal(s: string, t: string)
    ensures StrLess(s, t) || StrLess(t, s) || s == t
  {
    if s != "" && t != "" && s[0] == t[0] {
      StrLessTotal(s[1..], t[1..]);
      assert s == [s[0]] + s[1..] && t == [t[0]] + t[1..];
    }
  }

  lemma {:induction false} StrLessTrans(s: string, t: string, u: string)
    requires StrLess(s, t) && StrLess(t, u)
    ensures StrLess(s, u)
  {
    if s != "" && s[0] == t[0] == u[0] {
      StrLessTrans(s[1..], t[1..], u[1..]);
    }
  }

  lemma {:induction false} StrLessIrreflexive(s: string)
    ensures !StrLess(s, s)
  {
    if s != "" {
      StrLessIrreflexive(s[1..]);
    }
  }

  /** s and t agree before position n, where s has ended or has the smaller character. */
  predicate FirstDiffers(s: string, t: string, n: nat) {
    && n <= |s| && n < |t| && (forall i | 0 <= i < n :: s[i] == t[i])
    && (n == |s| || s[n] < t[n])
  }

  /** s comes before t: it is a proper prefix of t, or smaller at the first position where they differ. */
  ghost predicate Before(s: string, t: string) {
    exists n: nat :: FirstDiffers(s, t, n)
  }

  lemma FirstDiffersTail(s: string, t: string, n: nat)
    requires s != "" && t != "" && s[0] == t[0]
    ensures FirstDiffers(s, t, n + 1) <==> FirstDiffers(s[1..], t[1..], n)
  {
    if FirstDiffers(s, t, n + 1) {
      forall i | 0 <= i < n ensures s[1..][i] == t[1..][i] {
        assert s[i + 1] == t[i + 1];
      }
    }
    if FirstDiffers(s[1..], t[1..], n) {
      forall i | 0 <= i < n + 1 ensures s[i] == t[i] {
        assert i > 0 ==> s[1..][i - 1] == t[1..][i - 1];
      }
    }
  }

  lemma BeforeTail(s: string, t: string)
    requires s != "" && t != "" && s[0] == t[0]
    ensures Before(s, t) <==> Before(s[1..], t[1..])
  {
    if Before(s, t) {
      var n: nat :| FirstDiffers(s, t, n);
      FirstDiffersTail(s, t, n - 1);
    }
    if Before(s[1..], t[1..]) {
      var n: nat :| FirstDiffers(s[1..], t[1..], n);
      FirstDiffersTail(s, t, n);
    }
  }

  lemma {:induction false} StrLessExact(s: string, t: string)
    ensures StrLess(s, t) <==> Before(s, t)
  {
    if s == "" || t == "" || s[0] != t[0] {
      assert t != "" && (s == "" || s[0] < t[0]) ==> FirstDiffers(s, t, 0);
      assert FirstDiffers(s, t, 0) ==> StrLess(s, t);
    } else {
      StrLessExact(s[1..], t[1..]);
      BeforeTail(s, t);
    }
  }

  lemma StrLessStrictTotal()
    ensures StrictTotal(StrLess)
  {
    forall x ensures !StrLess(x, x) { StrLessIrreflexive(x); }
    forall x, y, z | StrLess(x, y) && StrLess(y, z) ensures StrLess(x, z) { StrLessTrans(x, y, z); }
    forall x, y ensures StrLess(x, y) || StrLess(y, x) || x == y { StrLessTotal(x, y); }
  }

  predicate Sorted(ks: seq<string>) {
    SortedBy(StrLess, ks)
  }

  function SortedKeys(s: set<string>): (ks: seq<string>)
    ensures Sorted(ks)
    ensures forall k :: k in ks <==> k in s
    ensures forall i | 0 <= i < |ks| :: ks[i] in s
  {
    StrLessStrictTotal();
    Sort(StrLess, s)
  }

  lemma SortedDistinct(ks: seq<string>)
    requires Sorted(ks)
    ensures forall i, j | 0 <= i < j < |ks| :: ks[i] != ks[j]
  {
    StrLessStrictTotal();
    SortDistinct(StrLess, ks);
  }
}
