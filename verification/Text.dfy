/** Lines and white space, as the tools see them. */
module Text {

  predicate IsSpace(c: char) {
    || '\t' <= c <= '\r'
    || '\U{1c}' <= c <= ' '
    || c == '\U{85}' || c == '\U{a0}' || c == '\U{1680}'
    || '\U{2000}' <= c <= '\U{200a}'
    || c == '\U{2028}' || c == '\U{2029}' || c == '\U{202f}' || c == '\U{205f}' || c == '\U{3000}'
  }

  /** The characters Python counts as white space. */
  const WHITESPACE := "\t\n\U{b}\U{c}\r\U{1c}\U{1d}\U{1e}\U{1f} \U{85}\U{a0}\U{1680}\U{2000}\U{2001}\U{2002}\U{2003}\U{2004}\U{2005}\U{2006}\U{2007}\U{2008}\U{2009}\U{200a}\U{2028}\U{2029}\U{202f}\U{205f}\U{3000}"

  lemma SpaceExact(c: char)
    ensures IsSpace(c) <==> c in WHITESPACE
  {
  }

  predicate IsBlankLine(s: string) {
    forall i | 0 <= i < |s| :: IsSpace(s[i])
  }

  function SkipSpace(s: string): string {
    if s != "" && IsSpace(s[0]) then SkipSpace(s[1..]) else s
  }

  /** text.split("\n") */
  function Split(t: string): (ls: seq<string>)
    ensures |ls| >= 1
    ensures forall i | 0 <= i < |ls| :: '\n' !in ls[i]
  {
    if t == "" then [""]
    else
      var rest := Split(t[1..]);
      if t[0] == '\n' then [""] + rest
      else [[t[0]] + rest[0]] + rest[1..]
  }

  /** "\n".join(lines) */
  function Join(ls: seq<string>): string {
    if ls == [] then ""
    else if |ls| == 1 then ls[0]
    else ls[0] + "\n" + Join(ls[1..])
  }

  lemma {:induction false} JoinSplit(t: string)
    ensures Join(Split(t)) == t
  {
    if t != "" {
      var rest := Split(t[1..]);
      JoinSplit(t[1..]);
      if t[0] == '\n' {
        assert Split(t)[1..] == rest;
        assert t == "\n" + t[1..];
      } else {
        assert Split(t)[1..] == rest[1..];
        assert t == [t[0]] + t[1..];
      }
    }
  }

  lemma {:induction false} SplitJoin(ls: seq<string>)
    requires |ls| >= 1 && forall i | 0 <= i < |ls| :: '\n' !in ls[i]
    ensures Split(Join(ls)) == ls
  {
    if |ls| == 1 {
      SplitLine(ls[0]);
      assert ls == [ls[0]];
    } else {
      SplitJoin(ls[1..]);
      SplitFirst(ls[0], Join(ls[1..]));
      assert ls == [ls[0]] + ls[1..];
      assert ls[0] + ("\n" + Join(ls[1..])) == Join(ls);
    }
  }

  lemma {:induction false} SplitLine(l: string)
    requires '\n' !in l
    ensures Split(l) == [l]
  {
    if l != "" {
      SplitLine(l[1..]);
      assert [l[0]] + l[1..] == l;
    }
  }

  lemma {:induction false} SplitFirst(l: string, t: string)
    requires '\n' !in l
    ensures Split(l + ("\n" + t)) == [l] + Split(t)
  {
    var s := l + ("\n" + t);
    if l == "" {
      assert s == "\n" + t;
      assert s[1..] == t;
    } else {
      SplitFirst(l[1..], t);
      assert s[1..] == l[1..] + ("\n" + t);
      assert s[0] == l[0];
      assert [l[0]] + l[1..] == l;
    }
  }

  /** The lines of several texts, one text after the other. */
  function SplitAll(ts: seq<string>): seq<string> {
    if ts == [] then [] else Split(ts[0]) + SplitAll(ts[1..])
  }

  /** The lines of a text with one more character in front. */
  function Consed(c: char, ls: seq<string>): seq<string>
    requires ls != []
  {
    if c == '\n' then [""] + ls else [[c] + ls[0]] + ls[1..]
  }

  lemma SplitCons(c: char, t: string)
    ensures Split([c] + t) == Consed(c, Split(t))
  {
    assert ([c] + t)[1..] == t;
  }

  lemma ConsedBoth(c: char, ls: seq<string>, ms: seq<string>)
    requires ls != []
    ensures Consed(c, ls + ms) == Consed(c, ls) + ms
  {
  }

  lemma SplitBothCons(c: char, s: string, u: string, ms: seq<string>)
    requires Split(s + u) == Split(s) + ms
    ensures Split([c] + (s + u)) == Split([c] + s) + ms
  {
    SplitCons(c, s + u);
    SplitCons(c, s);
    ConsedBoth(c, Split(s), ms);
  }

  lemma {:induction false} SplitBoth(s: string, t: string)
    ensures Split(s + ("\n" + t)) == Split(s) + Split(t)
  {
    var u := "\n" + t;
    if s == "" {
      SplitCons('\n', t);
      assert s + u == ['\n'] + t;
      assert Split(s) == [""];
    } else {
      SplitBoth(s[1..], t);
      SplitBothCons(s[0], s[1..], u, Split(t));
      assert [s[0]] + (s[1..] + u) == s + u && [s[0]] + s[1..] == s;
    }
  }

  /** Splitting joined texts gives the lines of each. */
  lemma {:induction false} SplitJoinAll(ts: seq<string>)
    requires ts != []
    ensures Split(Join(ts)) == SplitAll(ts)
  {
    if |ts| == 1 {
      assert SplitAll(ts[1..]) == [];
    } else {
      SplitJoinAll(ts[1..]);
      SplitBoth(ts[0], Join(ts[1..]));
      assert ts[0] + ("\n" + Join(ts[1..])) == Join(ts);
    }
  }

  /** The last line of a text ends as the text does. */
  lemma {:induction false} LastLineEnds(t: string)
    requires t != "" && t[|t| - 1] != '\n'
    ensures var l := Split(t)[|Split(t)| - 1]; l != "" && l[|l| - 1] == t[|t| - 1]
  {
    if |t| == 1 {
      assert Split(t[1..]) == [""];
    } else {
      LastLineEnds(t[1..]);
      assert t[1..][|t| - 2] == t[|t| - 1];
    }
  }
}
