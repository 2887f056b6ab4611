/** Fenced code blocks of a Markdown document, and the example markers above them. */
module Fences {
  import opened Outcomes
  import opened Text

  // ----- line patterns -----------------------------------------------------------------------

  predicate IsBlank(c: char) {
    c == ' ' || c == '\t'
  }

  function SkipBlanks(s: string): string {
    if s != "" && IsBlank(s[0]) then SkipBlanks(s[1..]) else s
  }

  function TrimBlanks(s: string): string {
    if s != "" && IsBlank(s[|s| - 1]) then TrimBlanks(s[..|s| - 1]) else s
  }

  /** Case-insensitive comparison with a lower-case letter; the letter s also covers U+017F. */
  predicate SameLetter(c: char, lower: char)
    requires 'a' <= lower <= 'z'
  {
    c == lower || c == (lower as int - 32) as char || (lower == 's' && c == '\U{17f}')
  }

  predicate SameWord(s: string, w: string)
    requires forall i | 0 <= i < |w| :: 'a' <= w[i] <= 'z'
  {
    |s| == |w| && forall i | 0 <= i < |s| :: SameLetter(s[i], w[i])
  }

  /** The language of an opening fence, as spelled in the line. */
  function OpenLang(line: string): Option<string> {
    var s := SkipBlanks(line);
    if !("```" <= s) then None
    else
      var w := TrimBlanks(SkipBlanks(s[3..]));
      if SameWord(w, "json") || SameWord(w, "python") then Some(w) else None
  }

  predicate IsOpen(line: string) {
    OpenLang(line).Some?
  }

  predicate IsClose(line: string) {
    var s := SkipBlanks(line);
    "```" <= s && SkipBlanks(s[3..]) == ""
  }

  /** The number of characters before the first '>'. */
  function BeforeAngle(s: string): (n: nat)
    ensures n <= |s| && '>' !in s[..n] && (n < |s| ==> s[n] == '>')
  {
    if s == "" || s[0] == '>' then 0 else 1 + BeforeAngle(s[1..])
  }

  /** What may follow "example:" in a marker: no '>' before the closing "-->", then white space. */
  predicate IsMarkerTail(s: string) {
    var n := BeforeAngle(s);
    2 <= n < |s| && s[n - 2..n] == "--" && IsBlankLine(s[n + 1..])
  }

  predicate IsMarker(line: string) {
    var s := SkipSpace(line);
    "<!--" <= s &&
    var t := SkipSpace(s[4..]);
    "example:" <= t && IsMarkerTail(t[8..])
  }

  function MarkerLine(name: string): string {
    "<!-- example: " + name + " -->"
  }

  lemma {:induction false} BeforeAngleAppend(s: string, t: string)
    requires '>' !in s
    ensures BeforeAngle(s + t) == |s| + BeforeAngle(t)
  {
    if s == "" {
      assert s + t == t;
    } else {
      assert (s + t)[1..] == s[1..] + t;
      assert s[0] in s;
      BeforeAngleAppend(s[1..], t);
    }
  }

  /** The marker written for a name is recognised on the next run exactly when the name has no '>'. */
  lemma MarkerRecognised(name: string)
    ensures IsMarker(MarkerLine(name)) <==> '>' !in name
  {
    MarkerTailOf(name);
    if '>' !in name {
      RecognisedTail(name);
    } else {
      UnrecognisedTail(name);
    }
  }

  lemma RecognisedTail(name: string)
    requires '>' !in name
    ensures IsMarkerTail(" " + name + " -->")
  {
    var x := " " + name + " ";
    assert " " + name + " -->" == x + ("-->" + "");
    assert '>' !in x;
    TailIsMarkers(" " + name + " -->", x, "");
  }

  lemma UnrecognisedTail(name: string)
    requires '>' in name
    ensures !IsMarkerTail(" " + name + " -->")
  {
    var tail := " " + name + " -->";
    var last := |tail| - 1;
    var i :| 0 <= i < |name| && name[i] == '>';
    var n := BeforeAngle(tail);
    assert tail[i + 1] == '>';
    assert n <= i + 1 by {
      assert tail[i + 1] in tail[..i + 2];
    }
    assert tail[n + 1..][last - n - 1] == '>';
  }

  lemma MarkerTailOf(name: string)
    ensures SkipSpace(MarkerLine(name)) == MarkerLine(name)
    ensures "<!--" <= MarkerLine(name)
    ensures SkipSpace(MarkerLine(name)[4..]) == "example: " + name + " -->"
    ensures ("example: " + name + " -->")[8..] == " " + name + " -->"
  {
    var line := MarkerLine(name);
    assert line[4..] == " " + ("example: " + name + " -->");
    assert line[4..][1..] == "example: " + name + " -->";
  }

  /** A marker line is neither blank nor a fence line. */
  lemma MarkerIsNoFence(name: string)
    ensures !IsOpen(MarkerLine(name)) && !IsClose(MarkerLine(name)) && !IsBlankLine(MarkerLine(name))
  {
    var line := MarkerLine(name);
    assert line[0] == '<';
    assert SkipBlanks(line) == line;
  }

  lemma {:induction false} SkipBlanksSpace(s: string)
    ensures IsBlankLine(s) ==> IsBlankLine(SkipBlanks(s))
  {
    if s != "" && IsBlank(s[0]) {
      SkipBlanksSpace(s[1..]);
    }
  }

  lemma OpenIsNotBlank(line: string)
    requires IsOpen(line)
    ensures !IsBlankLine(line)
  {
    SkipBlanksSpace(line);
    assert SkipBlanks(line)[0] == '`';
  }

  // ----- what the patterns accept, by decomposition ------------------------------------------

  /** The two languages, in any case; the letter s has a third form under case-insensitive matching. */
  predicate IsLanguage(w: string) {
    || (|w| == 4 && w[0] in "jJ" && w[1] in "sS\U{17f}" && w[2] in "oO" && w[3] in "nN")
    || (|w| == 6 && w[0] in "pP" && w[1] in "yY" && w[2] in "tT" && w[3] in "hH" && w[4] in "oO" && w[5] in "nN")
  }

  lemma LanguageExact(w: string)
    ensures SameWord(w, "json") || SameWord(w, "python") <==> IsLanguage(w)
  {
    if |w| == 4 {
      assert SameWord(w, "json") <==> SameLetter(w[0], 'j') && SameLetter(w[1], 's') && SameLetter(w[2], 'o') && SameLetter(w[3], 'n');
    }
    if |w| == 6 {
      assert SameWord(w, "python") <==> SameLetter(w[0], 'p') && SameLetter(w[1], 'y') && SameLetter(w[2], 't')
                                        && SameLetter(w[3], 'h') && SameLetter(w[4], 'o') && SameLetter(w[5], 'n');
    }
  }

  lemma {:induction false} SkipBlanksOff(a: string, s: string)
    requires Among(a, " \t") && (s == "" || s[0] !in " \t")
    ensures SkipBlanks(a + s) == s
  {
    if a == "" {
      assert a + s == s;
    } else {
      assert (a + s)[1..] == a[1..] + s && (a + s)[0] == a[0];
      SkipBlanksOff(a[1..], s);
    }
  }

  lemma {:induction false} SkipBlanksTakes(s: string) returns (a: string)
    ensures s == a + SkipBlanks(s) && Among(a, " \t")
    ensures SkipBlanks(s) == "" || SkipBlanks(s)[0] !in " \t"
  {
    a := "";
    if s != "" && IsBlank(s[0]) {
      var b := SkipBlanksTakes(s[1..]);
      a := [s[0]] + b;
      assert s == [s[0]] + s[1..];
    }
  }

  lemma {:induction false} TrimBlanksOff(s: string, c: string)
    requires Among(c, " \t") && (s == "" || s[|s| - 1] !in " \t")
    ensures TrimBlanks(s + c) == s
    decreases |c|
  {
    if c == "" {
      assert s + c == s;
    } else {
      var last := |c| - 1;
      assert (s + c)[..|s + c| - 1] == s + c[..last] && (s + c)[|s + c| - 1] == c[last];
      TrimBlanksOff(s, c[..last]);
    }
  }

  lemma {:induction false} TrimBlanksTakes(s: string) returns (c: string)
    ensures s == TrimBlanks(s) + c && Among(c, " \t")
    decreases |s|
  {
    c := "";
    if s != "" && IsBlank(s[|s| - 1]) {
      var last := |s| - 1;
      var d := TrimBlanksTakes(s[..last]);
      c := d + [s[last]];
      assert s == s[..last] + [s[last]];
    }
  }

  /** An opening line taken apart: blanks, the fence, blanks, the language, blanks. */
  predicate OpensAs(line: string, a: string, b: string, w: string, c: string) {
    line == a + ("```" + (b + (w + c))) && Among(a, " \t") && Among(b, " \t") && Among(c, " \t") && IsLanguage(w)
  }

  lemma OpensAsLang(line: string, a: string, b: string, w: string, c: string)
    requires OpensAs(line, a, b, w, c)
    ensures OpenLang(line) == Some(w)
  {
    var s := "```" + (b + (w + c));
    assert line == a + s;
    SkipBlanksOff(a, s);
    assert s[3..] == b + (w + c);
    LanguageEnds(w);
    SkipBlanksOff(b, w + c);
    TrimBlanksOff(w, c);
    LanguageExact(w);
  }

  lemma LanguageEnds(w: string)
    requires IsLanguage(w)
    ensures |w| >= 1 && w[0] !in " \t" && w[|w| - 1] !in " \t"
  {
  }

  lemma LangOpensAs(line: string) returns (a: string, b: string, c: string)
    requires OpenLang(line).Some?
    ensures OpensAs(line, a, b, OpenLang(line).value, c)
  {
    a := SkipBlanksTakes(line);
    var s := SkipBlanks(line);
    b := SkipBlanksTakes(s[3..]);
    c := TrimBlanksTakes(SkipBlanks(s[3..]));
    var w := OpenLang(line).value;
    LanguageExact(w);
    assert s == "```" + s[3..];
  }

  /** The lines that open a fence, and the language each names. */
  lemma OpenExact(line: string, w: string)
    ensures OpenLang(line) == Some(w) <==> exists a, b, c :: OpensAs(line, a, b, w, c)
  {
    if OpenLang(line) == Some(w) {
      var a, b, c := LangOpensAs(line);
    }
    if a, b, c :| OpensAs(line, a, b, w, c) {
      OpensAsLang(line, a, b, w, c);
    }
  }

  predicate ClosesAs(line: string, a: string, b: string) {
    line == a + ("```" + b) && Among(a, " \t") && Among(b, " \t")
  }

  /** The lines that close a fence. */
  lemma CloseExact(line: string)
    ensures IsClose(line) <==> exists a, b :: ClosesAs(line, a, b)
  {
    if IsClose(line) {
      var a := SkipBlanksTakes(line);
      var s := SkipBlanks(line);
      var b := SkipBlanksTakes(s[3..]);
      assert s == "```" + b;
      assert ClosesAs(line, a, b);
    }
    if a, b :| ClosesAs(line, a, b) {
      SkipBlanksOff(a, "```" + b);
      assert ("```" + b)[3..] == b && b + "" == b;
      SkipBlanksOff(b, "");
    }
  }

  lemma {:induction false} SkipSpaceOff(a: string, s: string)
    requires Among(a, WHITESPACE) && (s == "" || s[0] !in WHITESPACE)
    ensures SkipSpace(a + s) == s
  {
    if a == "" {
      assert a + s == s;
      if s != "" { SpaceExact(s[0]); }
    } else {
      SpaceExact(a[0]);
      assert (a + s)[1..] == a[1..] + s && (a + s)[0] == a[0];
      SkipSpaceOff(a[1..], s);
    }
  }

  lemma {:induction false} SkipSpaceAt(s: string) returns (k: nat)
    ensures k <= |s| && SkipSpace(s) == s[k..] && forall i | 0 <= i < k :: IsSpace(s[i])
  {
    k := 0;
    if s != "" && IsSpace(s[0]) {
      var j := SkipSpaceAt(s[1..]);
      k := j + 1;
      forall i | 0 <= i < k ensures IsSpace(s[i]) {
        assert i > 0 ==> s[1..][i - 1] == s[i];
      }
    }
  }

  lemma SkipSpaceTakes(s: string) returns (a: string)
    ensures s == a + SkipSpace(s) && Among(a, WHITESPACE)
  {
    var k := SkipSpaceAt(s);
    a := s[..k];
    BlankLineExact(a);
  }

  lemma BlankLineExact(s: string)
    ensures IsBlankLine(s) <==> Among(s, WHITESPACE)
  {
    forall i | 0 <= i < |s| ensures IsSpace(s[i]) <==> s[i] in WHITESPACE {
      SpaceExact(s[i]);
    }
  }

  predicate TailAs(s: string, x: string, c: string) {
    s == x + ("-->" + c) && '>' !in x && Among(c, WHITESPACE)
  }

  lemma TailTakes(s: string) returns (x: string, c: string)
    requires IsMarkerTail(s)
    ensures TailAs(s, x, c)
  {
    var n := BeforeAngle(s);
    x, c := s[..n - 2], s[n + 1..];
    BlankLineExact(c);
    TailParts(s, n);
  }

  lemma TailParts(s: string, n: nat)
    requires 2 <= n < |s| && s[n - 2..n] == "--" && s[n] == '>' && '>' !in s[..n]
    ensures s == s[..n - 2] + ("-->" + s[n + 1..]) && '>' !in s[..n - 2]
  {
    assert s[n - 2..] == s[n - 2..n] + ([s[n]] + s[n + 1..]);
    assert s[..n - 2] == s[..n][..n - 2];
  }

  lemma TailIsMarkers(s: string, x: string, c: string)
    requires TailAs(s, x, c)
    ensures IsMarkerTail(s)
  {
    assert s == (x + "--") + (">" + c);
    BeforeAngleAppend(x + "--", ">" + c);
    var n := |x| + 2;
    assert s[n + 1..] == c && s[n - 2..n] == "--";
    BlankLineExact(c);
  }

  /** A marker line taken apart: white space, the comment, what stands between "example:" and "-->", white space. */
  predicate MarksAs(line: string, a: string, b: string, x: string, c: string) {
    && line == a + ("<!--" + (b + ("example:" + (x + ("-->" + c)))))
    && Among(a, WHITESPACE) && Among(b, WHITESPACE) && '>' !in x && Among(c, WHITESPACE)
  }

  lemma MarksAsMarker(line: string, a: string, b: string, x: string, c: string)
    requires MarksAs(line, a, b, x, c)
    ensures IsMarker(line)
  {
    var tail := x + ("-->" + c);
    var t := "example:" + tail;
    TailIsMarkers(tail, x, c);
    PrefixIs("example:", tail);
    CommentIsMarker(b, t);
    SkipSpaceOff(a, "<!--" + (b + t));
  }

  lemma PrefixIs(p: string, s: string)
    ensures p <= p + s && (p + s)[|p|..] == s
  {
  }

  /** What follows the leading white space. */
  lemma CommentIsMarker(b: string, t: string)
    requires Among(b, WHITESPACE) && "example:" <= t && IsMarkerTail(t[8..])
    ensures var s := "<!--" + (b + t); "<!--" <= s && SkipSpace(s[4..]) == t
  {
    PrefixIs("<!--", b + t);
    SkipSpaceOff(b, t);
  }

  lemma MarkerMarksAs(line: string) returns (a: string, b: string, x: string, c: string)
    requires IsMarker(line)
    ensures MarksAs(line, a, b, x, c)
  {
    a := SkipSpaceTakes(line);
    var s := SkipSpace(line);
    b := SkipSpaceTakes(s[4..]);
    var t := SkipSpace(s[4..]);
    x, c := TailTakes(t[8..]);
    PrefixOff("example:", t);
    PrefixOff("<!--", s);
  }

  lemma PrefixOff(p: string, s: string)
    requires p <= s
    ensures s == p + s[|p|..]
  {
  }

  /** The lines that count as markers. */
  lemma MarkerExact(line: string)
    ensures IsMarker(line) <==> exists a, b, x, c :: MarksAs(line, a, b, x, c)
  {
    if IsMarker(line) {
      var a, b, x, c := MarkerMarksAs(line);
    }
    if a, b, x, c :| MarksAs(line, a, b, x, c) {
      MarksAsMarker(line, a, b, x, c);
    }
  }

  // ----- blocks ------------------------------------------------------------------------------

  datatype Block = Block(open: nat, close: nat, lang: string, body: string)

  datatype Mode = Outside | Inside(open: nat)

  predicate ModeOk(lines: seq<string>, k: nat, mode: Mode) {
    k <= |lines| && (mode.Inside? ==> mode.open < k && IsOpen(lines[mode.open]))
  }

  /** The one-pass scanner: outside a block, an opening line enters one; inside, the first closing
      line completes it. A block still open at the end of the text is dropped. */
  function Scan(lines: seq<string>, k: nat, mode: Mode): (bs: seq<Block>)
    requires ModeOk(lines, k, mode)
    ensures forall i | 0 <= i < |bs| :: bs[i].open < bs[i].close < |lines|
    decreases |lines| - k
  {
    if k == |lines| then []
    else if mode == Outside then
      Scan(lines, k + 1, if IsOpen(lines[k]) then Inside(k) else Outside)
    else if IsClose(lines[k]) then
      [Block(mode.open, k, OpenLang(lines[mode.open]).value, Join(lines[mode.open + 1..k]))]
      + Scan(lines, k + 1, Outside)
    else
      Scan(lines, k + 1, mode)
  }

  predicate Opens(bs: seq<Block>, o: nat) {
    exists i | 0 <= i < |bs| :: bs[i].open == o
  }

  function Blocks(lines: seq<string>): (bs: seq<Block>)
    ensures forall i | 0 <= i < |bs| :: bs[i].open < bs[i].close < |lines|
  {
    Scan(lines, 0, Outside)
  }

  lemma {:induction false} NoCloseNoBlocks(lines: seq<string>, k: nat, mode: Mode)
    requires ModeOk(lines, k, mode)
    requires forall i | k <= i < |lines| :: !IsClose(lines[i])
    ensures Scan(lines, k, mode) == []
    decreases |lines| - k
  {
    if k < |lines| {
      NoCloseNoBlocks(lines, k + 1,
                      if mode.Inside? then mode else if IsOpen(lines[k]) then Inside(k) else Outside);
    }
  }

  lemma ScanStep(lines: seq<string>, i: nat, j: nat)
    requires i < j < |lines| && IsOpen(lines[i])
    ensures Scan(lines, j, Inside(i))
         == if IsClose(lines[j])
            then [Block(i, j, OpenLang(lines[i]).value, Join(lines[i + 1..j]))] + Scan(lines, j + 1, Outside)
            else Scan(lines, j + 1, Inside(i))
  {
  }

  /** The inner loop: the closing line of the fence opened at i, or the end of the text. */
  method FindClose(lines: seq<string>, i: nat) returns (j: nat)
    requires i < |lines| && IsOpen(lines[i])
    ensures i < j <= |lines| && (j < |lines| ==> IsClose(lines[j]))
    ensures forall k | i < k < j :: !IsClose(lines[k])
    ensures Scan(lines, i, Outside) == Scan(lines, j, Inside(i))
  {
    j := i + 1;
    while j < |lines| && !IsClose(lines[j])
      invariant i < j <= |lines|
      invariant forall k | i < k < j :: !IsClose(lines[k])
      invariant Scan(lines, i, Outside) == Scan(lines, j, Inside(i))
    {
      ScanStep(lines, i, j);
      j := j + 1;
    }
  }

  lemma AfterBlock(lines: seq<string>, i: nat, j: nat, blocks: seq<Block>)
    requires i < j < |lines| && IsOpen(lines[i]) && IsClose(lines[j])
    requires Scan(lines, i, Outside) == Scan(lines, j, Inside(i))
    ensures var b := Block(i, j, OpenLang(lines[i]).value, Join(lines[i + 1..j]));
            blocks + Scan(lines, i, Outside) == blocks + [b] + Scan(lines, j + 1, Outside)
  {
    ScanStep(lines, i, j);
    Regroup(blocks, [Block(i, j, OpenLang(lines[i]).value, Join(lines[i + 1..j]))], Scan(lines, j + 1, Outside));
  }

  lemma Regroup(x: seq<Block>, y: seq<Block>, z: seq<Block>)
    ensures x + (y + z) == x + y + z
  {
  }

  /** Moving on one line finds the same blocks when no block starts at the line. */
  lemma AfterLine(lines: seq<string>, i: nat)
    requires i < |lines|
    requires IsOpen(lines[i]) ==> forall k | i < k < |lines| :: !IsClose(lines[k])
    ensures Scan(lines, i, Outside) == Scan(lines, i + 1, Outside)
  {
    if IsOpen(lines[i]) {
      NoCloseNoBlocks(lines, i + 1, Inside(i));
      NoCloseNoBlocks(lines, i + 1, Outside);
    }
  }

  /** Restarting after each block, and one line on after each unclosed opening, finds what the
      one-pass scanner finds. */
  method FindBlocks(lines: seq<string>) returns (blocks: seq<Block>)
    ensures blocks == Blocks(lines)
  {
    blocks := [];
    var i, n := 0, |lines|;
    while i < n
      invariant i <= n
      invariant blocks + Scan(lines, i, Outside) == Blocks(lines)
    {
      if IsOpen(lines[i]) {
        var lang := OpenLang(lines[i]).value;
        var j := FindClose(lines, i);
        if j < n {
          AfterBlock(lines, i, j, blocks);
          blocks := blocks + [Block(i, j, lang, Join(lines[i + 1..j]))];
          i := j + 1;
          continue;
        }
      }
      AfterLine(lines, i);
      i := i + 1;
    }
  }

  /** Block b is a real fence with no closing line inside. */
  ghost predicate IsFence(lines: seq<string>, b: Block) {
    && b.open < b.close < |lines|
    && OpenLang(lines[b.open]) == Some(b.lang)
    && IsClose(lines[b.close])
    && (forall l | b.open < l < b.close :: !IsClose(lines[l]))
    && b.body == Join(lines[b.open + 1..b.close])
  }

  ghost predicate Covers(b: Block, o: nat) {
    b.open <= o < b.close
  }

  ghost predicate Closable(lines: seq<string>, o: nat, c: nat) {
    o < c < |lines| && IsOpen(lines[o]) && IsClose(lines[c])
  }

  /** What the blocks found from line k on must satisfy, said without scanning: each is a fence,
      they follow one another without overlap, and no opening line that has a closing line below
      it lies outside all of them. */
  ghost predicate AreBlocks(lines: seq<string>, k: nat, bs: seq<Block>) {
    && (forall i | 0 <= i < |bs| :: k <= bs[i].open && IsFence(lines, bs[i]))
    && (forall i, j | 0 <= i < j < |bs| :: bs[i].close < bs[j].open)
    && (forall o: nat, c: nat | k <= o && Closable(lines, o, c) ::
          exists i | 0 <= i < |bs| :: Covers(bs[i], o))
  }

  lemma CoversShift(b: Block, rest: seq<Block>, o: nat)
    requires b.open <= o && (o < b.close || exists i | 0 <= i < |rest| :: Covers(rest[i], o))
    ensures exists i | 0 <= i <= |rest| :: Covers(([b] + rest)[i], o)
  {
    var bs := [b] + rest;
    if o < b.close {
      assert Covers(bs[0], o);
    } else {
      var i :| 0 <= i < |rest| && Covers(rest[i], o);
      assert bs[i + 1] == rest[i];
    }
  }

  lemma ClosingIsNotOpening(lines: seq<string>, b: Block, o: nat, c: nat)
    requires IsFence(lines, b) && Closable(lines, o, c)
    ensures o != b.close
  {
    if o == b.close {
      OpenIsNoClose(lines[o]);
    }
  }

  lemma PrependCovers(lines: seq<string>, b: Block, rest: seq<Block>, o: nat, c: nat)
    requires IsFence(lines, b) && AreBlocks(lines, b.close + 1, rest)
    requires b.open <= o && Closable(lines, o, c)
    ensures exists i | 0 <= i <= |rest| :: Covers(([b] + rest)[i], o)
  {
    ClosingIsNotOpening(lines, b, o, c);
    CoversShift(b, rest, o);
  }

  lemma PrependBlock(lines: seq<string>, b: Block, rest: seq<Block>)
    requires IsFence(lines, b)
    requires AreBlocks(lines, b.close + 1, rest)
    ensures AreBlocks(lines, b.open, [b] + rest)
  {
    var bs := [b] + rest;
    forall o: nat, c: nat | b.open <= o && Closable(lines, o, c)
      ensures exists i | 0 <= i < |bs| :: Covers(bs[i], o)
    {
      PrependCovers(lines, b, rest, o, c);
    }
  }

  lemma OpenIsNoClose(line: string)
    requires IsOpen(line)
    ensures !IsClose(line)
  {
  }

  lemma FenceIsClosable(lines: seq<string>, b: Block)
    requires IsFence(lines, b)
    ensures Closable(lines, b.open, b.close)
  {
  }

  lemma SameFence(lines: seq<string>, b: Block, c: Block)
    requires IsFence(lines, b) && IsFence(lines, c) && b.open == c.open
    ensures b == c
  {
    assert b.close == c.close;
  }

  lemma SkipLine(lines: seq<string>, k: nat, bs: seq<Block>)
    requires k < |lines| && !IsOpen(lines[k]) && AreBlocks(lines, k + 1, bs)
    ensures AreBlocks(lines, k, bs)
  {
  }

  lemma NothingCloses(lines: seq<string>, k: nat)
    requires forall l | k < l < |lines| :: !IsClose(lines[l])
    ensures AreBlocks(lines, k, [])
  {
  }

  lemma ClosingEmits(lines: seq<string>, k: nat, open: nat)
    requires open < k < |lines| && IsOpen(lines[open]) && IsClose(lines[k])
    requires forall l | open < l < k :: !IsClose(lines[l])
    ensures var b := Block(open, k, OpenLang(lines[open]).value, Join(lines[open + 1..k]));
            IsFence(lines, b) && Scan(lines, k, Inside(open)) == [b] + Scan(lines, k + 1, Outside)
  {
  }

  lemma CompleteBlock(lines: seq<string>, k: nat, open: nat)
    requires open < k < |lines| && IsOpen(lines[open]) && IsClose(lines[k])
    requires forall l | open < l < k :: !IsClose(lines[l])
    requires AreBlocks(lines, k + 1, Scan(lines, k + 1, Outside))
    ensures AreBlocks(lines, open, Scan(lines, k, Inside(open)))
  {
    var b := Block(open, k, OpenLang(lines[open]).value, Join(lines[open + 1..k]));
    ClosingEmits(lines, k, open);
    PrependBlock(lines, b, Scan(lines, k + 1, Outside));
  }

  lemma {:induction false} ScanFinds(lines: seq<string>, k: nat, mode: Mode)
    requires ModeOk(lines, k, mode)
    requires mode.Inside? ==> forall l | mode.open < l < k :: !IsClose(lines[l])
    ensures AreBlocks(lines, if mode.Inside? then mode.open else k, Scan(lines, k, mode))
    decreases |lines| - k
  {
    if k == |lines| {
      NothingCloses(lines, if mode.Inside? then mode.open else k);
    } else if mode == Outside {
      if IsOpen(lines[k]) {
        ScanFinds(lines, k + 1, Inside(k));
      } else {
        ScanFinds(lines, k + 1, Outside);
        SkipLine(lines, k, Scan(lines, k + 1, Outside));
      }
    } else if IsClose(lines[k]) {
      ScanFinds(lines, k + 1, Outside);
      CompleteBlock(lines, k, mode.open);
    } else {
      ScanFinds(lines, k + 1, mode);
    }
  }

  lemma {:induction false} BlocksUnique(lines: seq<string>, k: nat, bs: seq<Block>, cs: seq<Block>)
    requires AreBlocks(lines, k, bs) && AreBlocks(lines, k, cs)
    ensures bs == cs
    decreases |bs|
  {
    if bs == [] || cs == [] {
      if bs != [] { FenceIsClosable(lines, bs[0]); }
      if cs != [] { FenceIsClosable(lines, cs[0]); }
    } else {
      FirstOpensNoLater(lines, k, bs, cs);
      FirstOpensNoLater(lines, k, cs, bs);
      SameFence(lines, bs[0], cs[0]);
      TailOfBlocks(lines, k, bs);
      TailOfBlocks(lines, k, cs);
      BlocksUnique(lines, bs[0].close + 1, bs[1..], cs[1..]);
      assert bs == [bs[0]] + bs[1..] && cs == [cs[0]] + cs[1..];
    }
  }

  lemma FirstOpensNoLater(lines: seq<string>, k: nat, bs: seq<Block>, cs: seq<Block>)
    requires AreBlocks(lines, k, bs) && AreBlocks(lines, k, cs) && bs != [] && cs != []
    ensures cs[0].open <= bs[0].open
  {
    FenceIsClosable(lines, bs[0]);
    var i := CoverOf(lines, k, cs, bs[0].open, bs[0].close);
    FirstIsLeast(lines, k, cs, i);
  }

  lemma CoverOf(lines: seq<string>, k: nat, cs: seq<Block>, o: nat, c: nat) returns (i: nat)
    requires AreBlocks(lines, k, cs) && k <= o && Closable(lines, o, c)
    ensures i < |cs| && Covers(cs[i], o)
  {
    i :| i < |cs| && Covers(cs[i], o);
  }

  lemma FirstIsLeast(lines: seq<string>, k: nat, cs: seq<Block>, i: nat)
    requires AreBlocks(lines, k, cs) && i < |cs|
    ensures cs[0].open <= cs[i].open
  {
    assert IsFence(lines, cs[0]);
  }

  lemma TailOfBlocks(lines: seq<string>, k: nat, bs: seq<Block>)
    requires AreBlocks(lines, k, bs) && bs != []
    ensures AreBlocks(lines, bs[0].close + 1, bs[1..])
  {
    var rest := bs[1..];
    assert forall i | 0 <= i < |rest| :: rest[i] == bs[i + 1];
    assert IsFence(lines, bs[0]);
    forall o: nat, c: nat | bs[0].close + 1 <= o && Closable(lines, o, c)
      ensures exists i | 0 <= i < |rest| :: Covers(rest[i], o)
    {
      var i := CoverOf(lines, k, bs, o, c);
      assert Covers(rest[i - 1], o);
    }
  }

  /** The scanner's result is the one list of blocks that fits the description. */
  lemma BlocksExact(lines: seq<string>, bs: seq<Block>)
    ensures bs == Blocks(lines) <==> AreBlocks(lines, 0, bs)
  {
    ScanFinds(lines, 0, Outside);
    if AreBlocks(lines, 0, bs) {
      BlocksUnique(lines, 0, bs, Blocks(lines));
    }
  }

  // ----- markers above a fence ---------------------------------------------------------------

  /** The nearest line above `open` that is not blank is an example marker. */
  predicate Tagged(lines: seq<string>, open: nat) {
    0 < open <= |lines| && if IsBlankLine(lines[open - 1]) then Tagged(lines, open - 1) else IsMarker(lines[open - 1])
  }

  method AlreadyTagged(lines: seq<string>, open: nat) returns (b: bool)
    requires open <= |lines|
    ensures b == Tagged(lines, open)
    ensures b <==> exists k | 0 <= k < open ::
                     IsMarker(lines[k]) && !IsBlankLine(lines[k])
                     && forall l | k < l < open :: IsBlankLine(lines[l])
  {
    var k := open - 1;
    while k >= 0 && IsBlankLine(lines[k])
      invariant -1 <= k < open
      invariant forall l | k < l < open :: IsBlankLine(lines[l])
      invariant Tagged(lines, open) == Tagged(lines, k + 1)
    {
      k := k - 1;
    }
    b := k >= 0 && IsMarker(lines[k]);
  }
}
