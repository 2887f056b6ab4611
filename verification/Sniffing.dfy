/** The sniffer reads the one version string near the front of a message: matches never overlap,
    so what it returns depends on nothing but where a canonical version string stands. */
module Sniffing {
  import opened Outcomes
  import opened VersionStrings
  import opened VersionCodec

  /** For a match of li whose successor of layout lj would start d positions later, the position
      of the earlier match whose character cannot belong to both. */
  function Clash(li: Layout, lj: Layout, d: nat): nat {
    match (li, lj)
    case (Ver2, _) => if lj == Ver1 && d == 1 then 12 else 18
    case (Ver1, Ver1) => 16
    case (Ver1, Ver2) => if d <= 6 then 10 + d else if d <= 10 then 10 else d
  }

  lemma NoMatchInside(raw: string, i: nat, li: Layout, j: nat, lj: Layout)
    requires Matches(li, raw, i) && i < j < i + Span(li)
    ensures !Matches(lj, raw, j)
  {
    var k := Clash(li, lj, j - i);
    assert Fits(li, raw, i, k);
    assert !Fits(lj, raw, j, k - (j - i));
  }

  lemma OneLayout(raw: string, i: nat)
    requires Matches(Ver1, raw, i)
    ensures !Matches(Ver2, raw, i)
  {
    assert Fits(Ver1, raw, i, 10);
    if i + Span(Ver2) <= |raw| {
      assert !Fits(Ver2, raw, i, 10);
    }
  }

  /** Two places where a pattern matches are at least a whole match apart. */
  lemma MatchesNeverOverlap(raw: string, i: nat, li: Layout, j: nat, lj: Layout)
    requires Matches(li, raw, i) && Matches(lj, raw, j) && i <= j
    ensures (i == j && li == lj) || i + Span(li) <= j
  {
    if i == j {
      if Matches(Ver1, raw, i) {
        OneLayout(raw, i);
      }
    } else if j < i + Span(li) {
      NoMatchInside(raw, i, li, j, lj);
    }
  }

  /** A sniff that succeeds has found the only match within the offset limit. */
  lemma SmellFound(raw: string, o: nat, l: Layout)
    requires Matches(l, raw, o) && o <= 8
    ensures Search(raw, 0) == Some(Found(l, o))
  {
    var m := Search(raw, 0);
    assert m.Some? && m.value.start <= o;
    MatchesNeverOverlap(raw, m.value.start, m.value.layout, o, l);
  }

  lemma SliceMatches(l: Layout, raw: string, o: nat)
    requires o <= |raw|
    ensures Matches(l, raw[o..], 0) <==> Matches(l, raw, o)
  {
    var tail := raw[o..];
    if Matches(l, raw, o) {
      forall k: nat | k < Span(l) ensures Fits(l, tail, 0, k) {
        assert Fits(l, raw, o, k);
      }
    }
    if Matches(l, tail, 0) {
      forall k: nat | k < Span(l) ensures Fits(l, raw, o, k) {
        assert Fits(l, tail, 0, k);
      }
    }
  }

  /** Sniffing is parsing at the offset found. */
  lemma SmellIsDeversify(raw: string, o: nat, l: Layout)
    requires |raw| >= 27 && o <= 8 && Matches(l, raw, o)
    ensures Smell(raw) == Deversify(raw[o..])
  {
    SmellFound(raw, o, l);
    SliceMatches(Ver1, raw, o);
    SliceMatches(Ver2, raw, o);
    assert MatchAt(raw[o..], 0) == Some(l) by {
      MatchesNeverOverlap(raw[o..], 0, MatchAt(raw[o..], 0).value, 0, l);
    }
    assert raw[o..][..Span(l)] == raw[o..o + Span(l)];
  }

  /** More bytes are asked for exactly when there are fewer than 27. */
  lemma SmellShort(raw: string)
    ensures Smell(raw) == Err(ShortageError) <==> |raw| < 27
  {
    if |raw| >= 27 && Search(raw, 0).Some? {
      var m := Search(raw, 0).value;
      if m.start <= 8 {
        SmellIsDeversify(raw, m.start, m.layout);
        SliceMatches(m.layout, raw, m.start);
        DeversifyFaults(raw[m.start..], m.layout);
      }
    }
  }

  /** Without a match that starts within the first eight bytes, a long enough buffer is a version error. */
  lemma SmellMisses(raw: string)
    requires |raw| >= 27 && forall o: nat | o <= 8 :: !Matches(Ver1, raw, o) && !Matches(Ver2, raw, o)
    ensures Smell(raw) == Err(VersionError)
  {
  }

  /** The sniffer returns exactly the fields of the canonical version string that stands at an
      offset of at most 8 in at least 27 bytes. */
  lemma SmellExact(raw: string, s: Smellage)
    ensures Smell(raw) == Ok(s) <==>
            |raw| >= 27 && Canonical(s) && exists o: nat | o <= 8 :: Text(s) <= raw[o..]
  {
    if Smell(raw) == Ok(s) {
      var m := Search(raw, 0).value;
      SmellIsDeversify(raw, m.start, m.layout);
      DeversifyExact(raw[m.start..], s);
    }
    if |raw| >= 27 && Canonical(s) && exists o: nat | o <= 8 :: Text(s) <= raw[o..] {
      var o: nat :| o <= 8 && Text(s) <= raw[o..];
      DeversifyExact(raw[o..], s);
      var l := MatchAt(raw[o..], 0).value;
      SliceMatches(l, raw, o);
      SmellIsDeversify(raw, o, l);
    }
  }

  /** A message that carries printed fields behind at most 8 arbitrary bytes sniffs to exactly
      those fields: no chance match in or across the prefix can come first. */
  lemma SmellUnambiguous(prefix: string, proto: string, pvrsn: Versionage, kind: string, size: int,
                         gvrsn: Option<Versionage>, vs: string, suffix: string)
    requires |prefix| <= 8 && |prefix| + |vs| + |suffix| >= 27
    requires Terminates(proto, pvrsn, kind, size, gvrsn)
    requires Versify(proto, pvrsn, kind, size, gvrsn) == Ok(vs)
    requires FieldsFit(pvrsn, size, gvrsn)
    ensures Smell(prefix + vs + suffix) == Ok(Reported(proto, pvrsn, kind, size, gvrsn))
  {
    var raw := prefix + vs + suffix;
    var o := |prefix|;
    assert raw[o..] == vs + suffix;
    VersifyDeversify(proto, pvrsn, kind, size, gvrsn, vs, suffix);
    var l := MatchAt(raw[o..], 0).value;
    SliceMatches(l, raw, o);
    SmellIsDeversify(raw, o, l);
  }

  /** A buffer long enough to sniff gives the same answer, or the same error, however many more
      bytes arrive. */
  lemma SmellStable(raw: string, more: string)
    requires |raw| >= 27
    ensures Smell(raw + more) == Smell(raw[..27]) == Smell(raw)
  {
    SmellLocal(raw);
    SmellLocal(raw + more);
    assert (raw + more)[..27] == raw[..27];
  }

  lemma SmellLocal(raw: string)
    requires |raw| >= 27
    ensures Smell(raw) == Smell(raw[..27])
  {
    var head := raw[..27];
    var m, h := Search(raw, 0), Search(head, 0);
    if m.Some? && m.value.start <= 8 {
      var o, l := m.value.start, m.value.layout;
      PrefixMatches(l, raw, 27, o);
      SmellFound(head, o, l);
      assert head[o..o + Span(l)] == raw[o..o + Span(l)];
    } else if h.Some? && h.value.start <= 8 {
      PrefixMatches(h.value.layout, raw, 27, h.value.start);
      SmellFound(raw, h.value.start, h.value.layout);
    }
  }

  lemma PrefixMatches(l: Layout, raw: string, n: nat, o: nat)
    requires n <= |raw| && o + Span(l) <= n
    ensures Matches(l, raw[..n], o) <==> Matches(l, raw, o)
  {
    var head := raw[..n];
    assert forall k: nat | k < Span(l) :: Fits(l, head, o, k) <==> Fits(l, raw, o, k);
  }
}
