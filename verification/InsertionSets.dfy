/** Insertion-ordered sets: what a run of additions and removals leaves in one. */
module InsertionSets {
  import opened Outcomes
  import opened RegistryTables

  /** One update of an insertion-ordered set. */
  datatype SetOp = AddTo(x: Said) | RemFrom(x: Said) | Skip

  function Apply(s: seq<Said>, op: SetOp): seq<Said> {
    match op
    case AddTo(x) => Add(s, x)
    case RemFrom(x) => Rem(s, x)
    case Skip => s
  }

  function Fold(sops: seq<SetOp>): seq<Said> {
    if sops == [] then [] else Apply(Fold(sops[..|sops| - 1]), sops[|sops| - 1])
  }

  lemma FoldStep(sops: seq<SetOp>, op: SetOp)
    ensures Fold(sops + [op]) == Apply(Fold(sops), op)
  {
    assert (sops + [op])[..|sops|] == sops;
  }

  /** Position i added x, x has not been removed since, and every earlier addition was undone by then. */
  predicate Standing(sops: seq<SetOp>, x: Said, i: nat) {
    && i < |sops| && sops[i] == AddTo(x)
    && (forall j | i < j < |sops| :: sops[j] != RemFrom(x))
    && (forall j | 0 <= j < i && sops[j] == AddTo(x) :: exists k | j < k < i :: sops[k] == RemFrom(x))
  }

  predicate Distinct(s: seq<Said>) {
    forall i, j | 0 <= i < j < |s| :: s[i] != s[j]
  }

  /** The standing addition of x, if it has one. */
  function StandsAt(sops: seq<SetOp>, x: Said): (r: Option<nat>)
    ensures r.Some? ==> r.value < |sops|
  {
    if sops == [] then None
    else
      var n := |sops| - 1;
      var before := StandsAt(sops[..n], x);
      if sops[n] == RemFrom(x) then None
      else if sops[n] == AddTo(x) && before.None? then Some(n)
      else before
  }

  lemma {:induction false} StandsAtExact(sops: seq<SetOp>, x: Said, i: nat)
    ensures StandsAt(sops, x) == Some(i) <==> Standing(sops, x, i)
    decreases |sops|, 1
  {
    if sops != [] {
      var n := |sops| - 1;
      var front := sops[..n];
      StandsAtExact(front, x, i);
      if i < n {
        StandingFront(sops, x, i);
      } else if i == n && sops[n] == AddTo(x) {
        LastAdds(sops, x);
      }
    }
  }

  lemma StandingFront(sops: seq<SetOp>, x: Said, i: nat)
    requires i < |sops| - 1
    ensures Standing(sops, x, i) <==> Standing(sops[..|sops| - 1], x, i) && sops[|sops| - 1] != RemFrom(x)
  {
    var front := sops[..|sops| - 1];
    assert forall j | 0 <= j < |front| :: front[j] == sops[j];
    if Standing(front, x, i) && sops[|sops| - 1] != RemFrom(x) {
      forall j | 0 <= j < i && sops[j] == AddTo(x) ensures exists k | j < k < i :: sops[k] == RemFrom(x) {
        assert front[j] == AddTo(x);
        var k :| j < k < i && front[k] == RemFrom(x);
        assert sops[k] == RemFrom(x);
      }
    }
    if Standing(sops, x, i) {
      forall j | 0 <= j < i && front[j] == AddTo(x) ensures exists k | j < k < i :: front[k] == RemFrom(x) {
        assert sops[j] == AddTo(x);
        var k :| j < k < i && sops[k] == RemFrom(x);
        assert front[k] == RemFrom(x);
      }
    }
  }

  /** A last operation that adds x stands exactly when nothing stood before it. */
  lemma LastAdds(sops: seq<SetOp>, x: Said)
    requires sops != [] && sops[|sops| - 1] == AddTo(x)
    ensures Standing(sops, x, |sops| - 1) <==> StandsAt(sops[..|sops| - 1], x).None?
    decreases |sops|, 0
  {
    var n := |sops| - 1;
    var front := sops[..n];
    if StandsAt(front, x).Some? {
      StandsAtExact(front, x, StandsAt(front, x).value);
      var i := StandsAt(front, x).value;
      assert front[i] == sops[i];
      assert forall k | i < k < n :: front[k] == sops[k];
    } else {
      forall j | 0 <= j < n && sops[j] == AddTo(x) ensures exists k | j < k < n :: sops[k] == RemFrom(x) {
        if forall k | j < k < n :: sops[k] != RemFrom(x) {
          NeverRemoved(front, x, j);
        }
      }
    }
  }

  lemma {:induction false} NeverRemoved(sops: seq<SetOp>, x: Said, j: nat)
    requires j < |sops| && sops[j] == AddTo(x) && forall k | j < k < |sops| :: sops[k] != RemFrom(x)
    ensures StandsAt(sops, x).Some?
    decreases |sops|
  {
    var n := |sops| - 1;
    if j < n {
      NeverRemoved(sops[..n], x, j);
    }
  }

  lemma StandsStep(front: seq<SetOp>, op: SetOp, x: Said)
    ensures StandsAt(front + [op], x)
         == if op == RemFrom(x) then None
            else if op == AddTo(x) && StandsAt(front, x).None? then Some(|front|)
            else StandsAt(front, x)
  {
    assert (front + [op])[..|front|] == front;
  }

  predicate OrderedBy(sops: seq<SetOp>, s: seq<Said>) {
    && (forall i | 0 <= i < |s| :: StandsAt(sops, s[i]).Some?)
    && (forall i, j | 0 <= i < j < |s| :: StandsAt(sops, s[i]).value < StandsAt(sops, s[j]).value)
  }

  /** The members of s are those with a standing addition, in the order of those additions. */
  ghost predicate Holds(sops: seq<SetOp>, s: seq<Said>) {
    OrderedBy(sops, s) && forall x :: x in s <==> StandsAt(sops, x).Some?
  }

  lemma OrderedDistinct(sops: seq<SetOp>, s: seq<Said>)
    requires OrderedBy(sops, s)
    ensures Distinct(s)
  {
    forall i, j | 0 <= i < j < |s| ensures s[i] != s[j] {
      assert StandsAt(sops, s[i]).value < StandsAt(sops, s[j]).value;
    }
  }

  lemma SkipHolds(front: seq<SetOp>, s: seq<Said>)
    requires Holds(front, s)
    ensures Holds(front + [Skip], s)
  {
    forall x ensures StandsAt(front + [Skip], x) == StandsAt(front, x) {
      StandsStep(front, Skip, x);
    }
  }

  lemma AddHolds(front: seq<SetOp>, s: seq<Said>, x: Said)
    requires Holds(front, s)
    ensures Holds(front + [AddTo(x)], Add(s, x))
  {
    var sops := front + [AddTo(x)];
    forall y ensures StandsAt(sops, y) == if y == x && x !in s then Some(|front|) else StandsAt(front, y) {
      StandsStep(front, AddTo(x), y);
    }
    assert forall i | 0 <= i < |s| :: s[i] in s;
  }

  /** Removal takes out one SAID and keeps the order of all others. */
  lemma {:induction false} RemSplit(s: seq<Said>, x: Said) returns (p: nat)
    requires x in s
    ensures p < |s| && s[p] == x && Rem(s, x) == s[..p] + s[p + 1..]
    decreases |s|
  {
    if s[0] == x {
      p := 0;
    } else {
      var q := RemSplit(s[1..], x);
      p := q + 1;
      assert s[..p] == [s[0]] + s[1..][..q];
      assert s[p + 1..] == s[1..][q + 1..];
    }
  }

  lemma {:induction false} RemAbsent(s: seq<Said>, x: Said)
    requires x !in s
    ensures Rem(s, x) == s
    decreases |s|
  {
    if s != [] {
      RemAbsent(s[1..], x);
    }
  }

  lemma RemMembers(s: seq<Said>, x: Said, y: Said)
    requires Distinct(s)
    ensures y in Rem(s, x) <==> y in s && y != x
  {
    if x in s {
      var p := RemSplit(s, x);
      if y in s && y != x {
        var i :| 0 <= i < |s| && s[i] == y;
        assert y == if i < p then s[..p][i] else s[p + 1..][i - p - 1];
      }
    } else {
      RemAbsent(s, x);
    }
  }

  lemma RemHolds(front: seq<SetOp>, s: seq<Said>, x: Said)
    requires Holds(front, s)
    ensures Holds(front + [RemFrom(x)], Rem(s, x))
  {
    var sops, r := front + [RemFrom(x)], Rem(s, x);
    OrderedDistinct(front, s);
    forall y ensures StandsAt(sops, y) == (if y == x then None else StandsAt(front, y))
             ensures y in r <==> y in s && y != x {
      StandsStep(front, RemFrom(x), y);
      RemMembers(s, x, y);
    }
    assert OrderedBy(front, r) by {
      if x in s {
        var p := RemSplit(s, x);
      } else {
        RemAbsent(s, x);
      }
    }
    assert forall i | 0 <= i < |r| :: r[i] in r;
  }

  /** Whatever the run, the set holds exactly the SAIDs whose addition stands, in that order. */
  lemma {:induction false} FoldHolds(sops: seq<SetOp>)
    ensures Holds(sops, Fold(sops))
    decreases |sops|
  {
    if sops != [] {
      var front, op := sops[..|sops| - 1], sops[|sops| - 1];
      FoldHolds(front);
      assert sops == front + [op];
      match op
      case AddTo(x) => AddHolds(front, Fold(front), x);
      case RemFrom(x) => RemHolds(front, Fold(front), x);
      case Skip => SkipHolds(front, Fold(front));
    }
  }

  lemma StandingExists(sops: seq<SetOp>, x: Said)
    ensures StandsAt(sops, x).Some? <==> exists i: nat :: Standing(sops, x, i)
  {
    if StandsAt(sops, x).Some? {
      StandsAtExact(sops, x, StandsAt(sops, x).value);
    }
    if exists i: nat :: Standing(sops, x, i) {
      var i: nat :| Standing(sops, x, i);
      StandsAtExact(sops, x, i);
    }
  }

  /** The same, said by looking at the run: membership by a standing addition, and of two members the
      one whose addition stands at the earlier position comes first. */
  lemma FoldExact(sops: seq<SetOp>)
    ensures forall x :: x in Fold(sops) <==> exists i: nat :: Standing(sops, x, i)
    ensures forall p, q, i: nat, j: nat | 0 <= p < q < |Fold(sops)|
              && Standing(sops, Fold(sops)[p], i) && Standing(sops, Fold(sops)[q], j) :: i < j
    ensures Distinct(Fold(sops))
  {
    var s := Fold(sops);
    FoldHolds(sops);
    OrderedDistinct(sops, s);
    forall x ensures x in s <==> exists i: nat :: Standing(sops, x, i) {
      StandingExists(sops, x);
    }
    forall p, q, i: nat, j: nat | 0 <= p < q < |s| && Standing(sops, s[p], i) && Standing(sops, s[q], j)
      ensures i < j
    {
      StandsAtExact(sops, s[p], i);
      StandsAtExact(sops, s[q], j);
    }
  }
}
