/** Printing and parsing version strings are mutual inverses on the fields that fit, and nothing
    else parses. */
module VersionCodec {
  import opened Outcomes
  import opened Numerals
  import opened VersionStrings

  /** Each field fits the width its layout gives it. */
  predicate FieldsFit(pvrsn: Versionage, size: int, gvrsn: Option<Versionage>) {
    if pvrsn.major < 2 then
      0 <= pvrsn.major && 0 <= pvrsn.minor < 16 && 0 <= size < 0x100_0000
    else
      0 <= pvrsn.minor < 64 * 64 && 0 <= Genus(pvrsn, gvrsn).minor < 64 * 64 && 0 <= size < 0x100_0000
  }

  /** What the parser reports for printed fields: version 1 carries no genus, and version 2 always does. */
  function Reported(proto: string, pvrsn: Versionage, kind: string, size: int, gvrsn: Option<Versionage>): Smellage {
    Smellage(proto, pvrsn, kind, size,
             if pvrsn.major < 2 then None else Some(Genus(pvrsn, gvrsn)))
  }

  function SpanOf(s: Smellage): nat {
    if s.gvrsn.Some? then Span(Ver2) else Span(Ver1)
  }

  lemma KnownNames()
    ensures forall p | p in PROTOCOLS :: |p| == 4 && forall i | 0 <= i < 4 :: IsUpper(p[i])
    ensures forall k | k in KINDS :: |k| == 4 && forall i | 0 <= i < 4 :: IsUpper(k[i])
  {
  }

  // ----- the two layouts, character by character ---------------------------------------------

  predicate OfClass(s: string, k: CharClass) {
    forall i | 0 <= i < |s| :: InClass(s[i], k)
  }

  /** Positions lo to hi of a layout ask for one class. */
  lemma RunExact(l: Layout, raw: string, o: nat, lo: nat, hi: nat, k: CharClass)
    requires o + Span(l) <= |raw| && lo <= hi <= Span(l) && forall j: nat | lo <= j < hi :: ClassAt(l, j) == k
    ensures OfClass(raw[o + lo..o + hi], k) <==> forall j: nat | lo <= j < hi :: Fits(l, raw, o, j)
  {
    var s := raw[o + lo..o + hi];
    if OfClass(s, k) {
      forall j: nat | lo <= j < hi ensures Fits(l, raw, o, j) {
        assert s[j - lo] == raw[o + j];
      }
    }
    if forall j: nat | lo <= j < hi :: Fits(l, raw, o, j) {
      forall i | 0 <= i < |s| ensures InClass(s[i], k) {
        assert Fits(l, raw, o, lo + i);
      }
    }
  }

  lemma Runs1(raw: string, o: nat)
    requires o + 17 <= |raw|
    ensures Matches(Ver1, raw, o) <==>
            && OfClass(raw[o..o + 4], UpperCase) && OfClass(raw[o + 4..o + 6], HexDigit)
            && OfClass(raw[o + 6..o + 10], UpperCase) && OfClass(raw[o + 10..o + 16], HexDigit) && raw[o + 16] == '_'
  {
    RunExact(Ver1, raw, o, 0, 4, UpperCase);
    RunExact(Ver1, raw, o, 4, 6, HexDigit);
    RunExact(Ver1, raw, o, 6, 10, UpperCase);
    RunExact(Ver1, raw, o, 10, 16, HexDigit);
    assert Fits(Ver1, raw, o, 16) <==> raw[o + 16] == '_';
  }

  lemma Runs2(raw: string, o: nat)
    requires o + 19 <= |raw|
    ensures Matches(Ver2, raw, o) <==>
            && OfClass(raw[o..o + 4], UpperCase) && OfClass(raw[o + 4..o + 10], B64Digit)
            && OfClass(raw[o + 10..o + 14], UpperCase) && OfClass(raw[o + 14..o + 18], B64Digit) && raw[o + 18] == '.'
  {
    RunExact(Ver2, raw, o, 0, 4, UpperCase);
    RunExact(Ver2, raw, o, 4, 10, B64Digit);
    RunExact(Ver2, raw, o, 10, 14, UpperCase);
    RunExact(Ver2, raw, o, 14, 18, B64Digit);
    assert Fits(Ver2, raw, o, 18) <==> raw[o + 18] == '.';
  }

  lemma ClassesExact(s: string)
    ensures OfClass(s, UpperCase) <==> Among(s, UPPER)
    ensures OfClass(s, HexDigit) <==> Among(s, HEXADECIMAL)
    ensures OfClass(s, B64Digit) <==> Among(s, BASE64)
  {
    forall i | 0 <= i < |s|
      ensures InClass(s[i], UpperCase) <==> s[i] in UPPER
      ensures InClass(s[i], HexDigit) <==> s[i] in HEXADECIMAL
      ensures InClass(s[i], B64Digit) <==> s[i] in BASE64
    {
      IsUpperExact(s[i]);
      IsDigitExact(Hex, s[i]);
      IsDigitExact(B64, s[i]);
    }
  }

  /** Version 1: four capitals, two hexadecimal digits, four capitals, six hexadecimal digits and an underscore. */
  lemma Matches1Exact(raw: string, o: nat)
    ensures Matches(Ver1, raw, o) <==>
            && o + 17 <= |raw| && Among(raw[o..o + 4], UPPER) && Among(raw[o + 4..o + 6], HEXADECIMAL)
            && Among(raw[o + 6..o + 10], UPPER) && Among(raw[o + 10..o + 16], HEXADECIMAL) && raw[o + 16] == '_'
  {
    if o + 17 <= |raw| {
      Runs1(raw, o);
      ClassesExact(raw[o..o + 4]);
      ClassesExact(raw[o + 4..o + 6]);
      ClassesExact(raw[o + 6..o + 10]);
      ClassesExact(raw[o + 10..o + 16]);
    }
  }

  /** Version 2: four capitals, six Base64 digits, four capitals, four Base64 digits and a dot. */
  lemma Matches2Exact(raw: string, o: nat)
    ensures Matches(Ver2, raw, o) <==>
            && o + 19 <= |raw| && Among(raw[o..o + 4], UPPER) && Among(raw[o + 4..o + 10], BASE64)
            && Among(raw[o + 10..o + 14], UPPER) && Among(raw[o + 14..o + 18], BASE64) && raw[o + 18] == '.'
  {
    if o + 19 <= |raw| {
      Runs2(raw, o);
      ClassesExact(raw[o..o + 4]);
      ClassesExact(raw[o + 4..o + 10]);
      ClassesExact(raw[o + 10..o + 14]);
      ClassesExact(raw[o + 14..o + 18]);
    }
  }

  // ----- what the printer refuses, and what it prints ----------------------------------------

  const GENUINE := {"KERI", "ACDC"}
  const SERIALS := {"JSON", "CBOR", "MGPK", "CESR"}

  /** When the printer refuses, and with which error; it prints in all other cases. */
  lemma VersifyFaults(proto: string, pvrsn: Versionage, kind: string, size: int, gvrsn: Option<Versionage>)
    requires Terminates(proto, pvrsn, kind, size, gvrsn)
    ensures var r := Versify(proto, pvrsn, kind, size, gvrsn);
            var clash := pvrsn.major < 2 && gvrsn.Some? && gvrsn.value != pvrsn;
            && (r == Err(ProtocolError) <==> proto !in GENUINE)
            && (r == Err(KindError) <==>
                proto in GENUINE && (kind !in SERIALS || (kind == "CESR" && pvrsn.major < 2 && !clash)))
            && (r == Err(VersionError) <==>
                proto in GENUINE && kind in SERIALS
                && (clash || pvrsn.major > 2 || (pvrsn.major == 2 && gvrsn.Some? && gvrsn.value.major != 2)))
            && r != Err(ShortageError)
  {
  }

  /** Fields that fit can always be printed: only version 2 fields below zero keep the printer from returning. */
  lemma FittingTerminates(proto: string, pvrsn: Versionage, kind: string, size: int, gvrsn: Option<Versionage>)
    requires FieldsFit(pvrsn, size, gvrsn) || pvrsn.major != 2 || (gvrsn.Some? && gvrsn.value.major != 2)
    ensures Terminates(proto, pvrsn, kind, size, gvrsn)
  {
  }

  // ----- version 1 ---------------------------------------------------------------------------

  function Text1(proto: string, major: string, minor: string, kind: string, size: string): string {
    proto + major + minor + kind + size + "_"
  }

  predicate SignedHex(s: string) {
    forall i | 0 <= i < |s| :: IsDigit(Hex, s[i]) || s[i] == '-'
  }

  /** Wherever its kind falls, a version 1 text is no version 2 text, whatever follows it. */
  lemma NotVer2(proto: string, major: string, minor: string, kind: string, size: string, rest: string)
    requires proto in PROTOCOLS && kind in KINDS
    requires |major| >= 1 && |minor| >= 1 && |size| >= 6
    requires SignedHex(major) && SignedHex(minor) && SignedHex(size)
    ensures !Matches(Ver2, Text1(proto, major, minor, kind, size) + rest, 0)
  {
    KnownNames();
    var raw := Text1(proto, major, minor, kind, size) + rest;
    var s := 4 + |major| + |minor|;
    if |raw| >= 19 {
      if s < 10 {
        assert raw[13] == size[13 - s - 4];
        assert !Fits(Ver2, raw, 0, 13);
      } else if s > 10 {
        assert raw[10] == (major + minor)[6];
        assert !Fits(Ver2, raw, 0, 10);
      } else {
        assert raw[18] == size[4];
        assert !Fits(Ver2, raw, 0, 18);
      }
    }
  }

  predicate WellSized1(proto: string, major: string, minor: string, kind: string, size: string) {
    && proto in PROTOCOLS && kind in KINDS && kind != CESR
    && |major| == 1 && |minor| == 1 && |size| == 6
    && AllDigits(Hex, major) && AllDigits(Hex, minor) && AllDigits(Hex, size)
    && Read(Hex, major) <= 1
  }

  lemma Layout1(proto: string, major: string, minor: string, kind: string, size: string, rest: string)
    requires WellSized1(proto, major, minor, kind, size)
    ensures Matches(Ver1, Text1(proto, major, minor, kind, size) + rest, 0)
  {
    KnownNames();
    var raw := Text1(proto, major, minor, kind, size) + rest;
    forall k: nat | k < Span(Ver1) ensures Fits(Ver1, raw, 0, k) {
      if k < 4 { assert raw[k] == proto[k]; }
      else if k == 4 { assert raw[k] == major[0]; }
      else if k == 5 { assert raw[k] == minor[0]; }
      else if k < 10 { assert raw[k] == kind[k - 6]; }
      else if k < 16 { assert raw[k] == size[k - 10]; }
    }
  }

  lemma Fields1(proto: string, major: string, minor: string, kind: string, size: string)
    requires WellSized1(proto, major, minor, kind, size)
    ensures var vs := Text1(proto, major, minor, kind, size);
            |vs| == 17 && vs[16] == '_' && vs[0..4] == proto && vs[4..5] == major && vs[5..6] == minor
            && vs[6..10] == kind && vs[10..16] == size
  {
    KnownNames();
  }

  /** A well-sized version 1 text, followed by anything, parses back to its own parts. */
  lemma Parse1(proto: string, major: string, minor: string, kind: string, size: string, rest: string)
    requires WellSized1(proto, major, minor, kind, size)
    ensures Deversify(Text1(proto, major, minor, kind, size) + rest)
         == Ok(Smellage(proto, Versionage(Read(Hex, major), Read(Hex, minor)), kind, Read(Hex, size), None))
  {
    var vs := Text1(proto, major, minor, kind, size);
    Layout1(proto, major, minor, kind, size, rest);
    NotVer2(proto, major, minor, kind, size, rest);
    Fields1(proto, major, minor, kind, size);
    assert (vs + rest)[..17] == vs;
    MatchesSlice(Ver1, vs + rest, 0);
  }

  // ----- version 2 ---------------------------------------------------------------------------

  function Text2(proto: string, pmajor: string, pminor: string, gmajor: string, gminor: string,
                 kind: string, size: string): string {
    proto + pmajor + pminor + gmajor + gminor + kind + size + "."
  }

  predicate WellSized2(proto: string, pmajor: string, pminor: string, gmajor: string, gminor: string,
                       kind: string, size: string) {
    && proto in PROTOCOLS && kind in KINDS
    && |pmajor| == 1 && |pminor| == 2 && |gmajor| == 1 && |gminor| == 2 && |size| == 4
    && AllDigits(B64, pmajor) && AllDigits(B64, pminor) && AllDigits(B64, gmajor)
    && AllDigits(B64, gminor) && AllDigits(B64, size)
    && Read(B64, pmajor) == 2 && Read(B64, gmajor) == 2
  }

  lemma Layout2(proto: string, pmajor: string, pminor: string, gmajor: string, gminor: string,
                kind: string, size: string, rest: string)
    requires WellSized2(proto, pmajor, pminor, gmajor, gminor, kind, size)
    ensures Matches(Ver2, Text2(proto, pmajor, pminor, gmajor, gminor, kind, size) + rest, 0)
  {
    KnownNames();
    var raw := Text2(proto, pmajor, pminor, gmajor, gminor, kind, size) + rest;
    forall k: nat | k < Span(Ver2) ensures Fits(Ver2, raw, 0, k) {
      if k < 4 { assert raw[k] == proto[k]; }
      else if k == 4 { assert raw[k] == pmajor[0]; }
      else if k < 7 { assert raw[k] == pminor[k - 5]; }
      else if k == 7 { assert raw[k] == gmajor[0]; }
      else if k < 10 { assert raw[k] == gminor[k - 8]; }
      else if k < 14 { assert raw[k] == kind[k - 10]; }
      else if k < 18 { assert raw[k] == size[k - 14]; }
    }
  }

  lemma Fields2(proto: string, pmajor: string, pminor: string, gmajor: string, gminor: string,
                kind: string, size: string)
    requires WellSized2(proto, pmajor, pminor, gmajor, gminor, kind, size)
    ensures var vs := Text2(proto, pmajor, pminor, gmajor, gminor, kind, size);
            |vs| == 19 && vs[18] == '.' && vs[0..4] == proto && vs[4..5] == pmajor && vs[5..7] == pminor
            && vs[7..8] == gmajor && vs[8..10] == gminor && vs[10..14] == kind && vs[14..18] == size
  {
    KnownNames();
    var vs := Text2(proto, pmajor, pminor, gmajor, gminor, kind, size);
    PartAt(vs, 0, proto);
    PartAt(vs, 4, pmajor);
    PartAt(vs, 5, pminor);
    PartAt(vs, 7, gmajor);
    PartAt(vs, 8, gminor);
    PartAt(vs, 10, kind);
    PartAt(vs, 14, size);
  }

  lemma PartAt(whole: string, at: nat, part: string)
    requires at + |part| <= |whole| && forall k | 0 <= k < |part| :: whole[at + k] == part[k]
    ensures whole[at..at + |part|] == part
  {
  }

  lemma Parse2(proto: string, pmajor: string, pminor: string, gmajor: string, gminor: string,
               kind: string, size: string, rest: string)
    requires WellSized2(proto, pmajor, pminor, gmajor, gminor, kind, size)
    ensures Deversify(Text2(proto, pmajor, pminor, gmajor, gminor, kind, size) + rest)
         == Ok(Smellage(proto, Versionage(2, Read(B64, pminor)), kind, Read(B64, size),
                        Some(Versionage(2, Read(B64, gminor)))))
  {
    var vs := Text2(proto, pmajor, pminor, gmajor, gminor, kind, size);
    Layout2(proto, pmajor, pminor, gmajor, gminor, kind, size, rest);
    Fields2(proto, pmajor, pminor, gmajor, gminor, kind, size);
    assert (vs + rest)[..19] == vs;
    MatchesSlice(Ver2, vs + rest, 0);
  }

  // ----- fields that do not fit --------------------------------------------------------------

  lemma FormatHexShape(i: int, w: nat)
    ensures SignedHex(FormatHex(i, w)) && |FormatHex(i, w)| >= 1 && |FormatHex(i, w)| >= w
    ensures i < 0 <==> FormatHex(i, w)[0] == '-'
    ensures 0 <= i ==> AllDigits(Hex, FormatHex(i, w)) && Read(Hex, FormatHex(i, w)) == i
  {
    if i >= 0 {
      ReadPrint(Hex, i, w);
    }
  }

  lemma HexWidths(n: nat)
    ensures |Print(Hex, n, 0)| == 1 <==> n < 16
    ensures |Print(Hex, n, 6)| == 6 <==> n < 0x100_0000
  {
    PrintWidth(Hex, n, 1);
    PrintWidth(Hex, n, 6);
    assert Pow(16, 1) == 16 && Pow(16, 6) == 0x100_0000;
  }

  lemma B64Widths(n: nat)
    ensures |Print(B64, n, 2)| == 2 <==> n < 64 * 64
    ensures |Print(B64, n, 4)| == 4 <==> n < 0x100_0000
  {
    PrintWidth(B64, n, 2);
    PrintWidth(B64, n, 4);
    assert Pow(64, 2) == 64 * 64 && Pow(64, 4) == 0x100_0000;
  }

  /** A sign, or a digit too many in a version 1 field, spoils the layout. */
  lemma NotVer1(proto: string, major: string, minor: string, kind: string, size: string, rest: string)
    requires proto in PROTOCOLS && kind in KINDS
    requires |major| >= 1 && |minor| >= 1 && |size| >= 6
    requires SignedHex(major) && SignedHex(minor) && SignedHex(size)
    requires major[0] == '-'
          || (|major| == 1 && (minor[0] == '-' || |minor| >= 2))
          || (|major| == |minor| == 1 && (size[0] == '-' || |size| >= 7))
    ensures !Matches(Ver1, Text1(proto, major, minor, kind, size) + rest, 0)
  {
    KnownNames();
    var raw := Text1(proto, major, minor, kind, size) + rest;
    assert raw[4] == major[0];
    if major[0] == '-' {
      assert !Fits(Ver1, raw, 0, 4);
    } else if |minor| >= 2 {
      assert raw[6] == minor[1];
      assert !Fits(Ver1, raw, 0, 6);
    } else if minor[0] == '-' {
      assert raw[5] == minor[0];
      assert !Fits(Ver1, raw, 0, 5);
    } else if size[0] == '-' {
      assert raw[10] == size[0];
      assert !Fits(Ver1, raw, 0, 10);
    } else {
      assert raw[16] == size[6];
      assert !Fits(Ver1, raw, 0, 16);
    }
  }

  lemma Misfit1(proto: string, pvrsn: Versionage, kind: string, size: int, vs: string, rest: string)
    requires proto in PROTOCOLS && kind in KINDS && pvrsn.major < 2
    requires vs == Text1(proto, FormatHex(pvrsn.major, 0), FormatHex(pvrsn.minor, 0), kind, FormatHex(size, 6))
    requires !FieldsFit(pvrsn, size, None)
    ensures MatchAt(vs + rest, 0) == None
  {
    FormatHexShape(pvrsn.major, 0);
    FormatHexShape(pvrsn.minor, 0);
    FormatHexShape(size, 6);
    if pvrsn.major >= 0 { HexWidths(pvrsn.major); }
    if pvrsn.minor >= 0 { HexWidths(pvrsn.minor); }
    if size >= 0 { HexWidths(size); }
    NotVer1(proto, FormatHex(pvrsn.major, 0), FormatHex(pvrsn.minor, 0), kind, FormatHex(size, 6), rest);
    NotVer2(proto, FormatHex(pvrsn.major, 0), FormatHex(pvrsn.minor, 0), kind, FormatHex(size, 6), rest);
  }

  /** A digit too many in a version 2 field pushes the only dot out of its place. */
  lemma Misfit2(proto: string, pminor: string, gminor: string, kind: string, size: string, rest: string)
    requires proto in PROTOCOLS && kind in KINDS
    requires |pminor| >= 2 && |gminor| >= 2 && |size| >= 4 && |pminor| + |gminor| + |size| > 8
    requires AllDigits(B64, pminor) && AllDigits(B64, gminor) && AllDigits(B64, size)
    ensures MatchAt(Text2(proto, "C", pminor, "C", gminor, kind, size) + rest, 0) == None
  {
    KnownNames();
    var body := proto + "C" + pminor + "C" + gminor + kind + size;
    var raw := Text2(proto, "C", pminor, "C", gminor, kind, size) + rest;
    assert raw[4] == 'C';
    assert !Fits(Ver1, raw, 0, 4);
    assert raw[18] == body[18];
    assert body[18] != '.' by {
      assert forall i | 0 <= i < |body| :: IsDigit(B64, body[i]);
    }
    assert !Fits(Ver2, raw, 0, 18);
  }

  // ----- the printed text, character by character --------------------------------------------

  /** A printed version 1 string whose fields fit: protocol, versions and size in hexadecimal, kind, underscore. */
  lemma Version1Text(proto: string, pvrsn: Versionage, kind: string, size: int, gvrsn: Option<Versionage>, vs: string)
    requires Terminates(proto, pvrsn, kind, size, gvrsn) && Versify(proto, pvrsn, kind, size, gvrsn) == Ok(vs)
    requires pvrsn.major < 2 && FieldsFit(pvrsn, size, gvrsn)
    ensures |vs| == 17 && vs[..4] == proto && vs[6..10] == kind && vs[16] == '_'
    ensures vs[4] == HEXADECIMAL[pvrsn.major] && vs[5] == HEXADECIMAL[pvrsn.minor]
    ensures Writes(vs[10..16], HEXADECIMAL, size)
  {
    var major, minor, digits := FormatHex(pvrsn.major, 0), FormatHex(pvrsn.minor, 0), FormatHex(size, 6);
    HexWidths(pvrsn.major);
    HexWidths(pvrsn.minor);
    HexWidths(size);
    ReadPrint(Hex, pvrsn.major, 0);
    DigitsExact(Hex, pvrsn.major);
    DigitsExact(Hex, pvrsn.minor);
    FormatHexShape(pvrsn.major, 0);
    Fields1(proto, major, minor, kind, digits);
    PrintWrites(Hex, size, 6);
  }

  /** A printed version 2 string whose fields fit, in Base64, with the genus version behind the protocol's. */
  lemma Version2Text(proto: string, pvrsn: Versionage, kind: string, size: int, gvrsn: Option<Versionage>, vs: string)
    requires Terminates(proto, pvrsn, kind, size, gvrsn) && Versify(proto, pvrsn, kind, size, gvrsn) == Ok(vs)
    requires pvrsn.major == 2 && FieldsFit(pvrsn, size, gvrsn)
    ensures |vs| == 19 && vs[..4] == proto && vs[4] == 'C' && vs[7] == 'C' && vs[10..14] == kind && vs[18] == '.'
    ensures Writes(vs[5..7], BASE64, pvrsn.minor) && Writes(vs[14..18], BASE64, size)
    ensures Writes(vs[8..10], BASE64, if gvrsn.Some? then gvrsn.value.minor else pvrsn.minor)
  {
    var genus := Genus(pvrsn, gvrsn);
    B64Widths(pvrsn.minor);
    B64Widths(genus.minor);
    B64Widths(size);
    ReadPrint(B64, 2, 1);
    assert Print(B64, 2, 1) == "C";
    Fields2(proto, "C", Print(B64, pvrsn.minor, 2), "C", Print(B64, genus.minor, 2), kind, Print(B64, size, 4));
    PrintWrites(B64, pvrsn.minor, 2);
    PrintWrites(B64, genus.minor, 2);
    PrintWrites(B64, size, 4);
  }

  /** i in hexadecimal, with zeros up to the width w, to which a sign counts. */
  ghost predicate WritesHex(s: string, i: int, w: nat) {
    if i >= 0 then WritesPadded(s, HEXADECIMAL, i, w)
    else s != "" && s[0] == '-' && WritesPadded(s[1..], HEXADECIMAL, -i, if w == 0 then 0 else w - 1)
  }

  lemma HexWritten(i: int, w: nat)
    ensures WritesHex(FormatHex(i, w), i, w)
  {
    if i >= 0 {
      PrintWritesPadded(Hex, i, w);
    } else {
      PrintWritesPadded(Hex, -i, if w == 0 then 0 else w - 1);
      assert FormatHex(i, w)[1..] == Print(Hex, -i, if w == 0 then 0 else w - 1);
    }
  }

  /** The printed version 1 string, whether its fields fit or not. */
  lemma Version1Written(proto: string, pvrsn: Versionage, kind: string, size: int, gvrsn: Option<Versionage>, vs: string)
    returns (major: string, minor: string, digits: string)
    requires Terminates(proto, pvrsn, kind, size, gvrsn) && Versify(proto, pvrsn, kind, size, gvrsn) == Ok(vs)
    requires pvrsn.major < 2
    ensures vs == proto + major + minor + kind + digits + "_"
    ensures WritesHex(major, pvrsn.major, 0) && WritesHex(minor, pvrsn.minor, 0) && WritesHex(digits, size, 6)
  {
    major, minor, digits := FormatHex(pvrsn.major, 0), FormatHex(pvrsn.minor, 0), FormatHex(size, 6);
    HexWritten(pvrsn.major, 0);
    HexWritten(pvrsn.minor, 0);
    HexWritten(size, 6);
  }

  /** And the version 2 string. */
  lemma Version2Written(proto: string, pvrsn: Versionage, kind: string, size: int, gvrsn: Option<Versionage>, vs: string)
    returns (pminor: string, gminor: string, digits: string)
    requires Terminates(proto, pvrsn, kind, size, gvrsn) && Versify(proto, pvrsn, kind, size, gvrsn) == Ok(vs)
    requires pvrsn.major == 2
    ensures vs == proto + "C" + pminor + "C" + gminor + kind + digits + "."
    ensures WritesPadded(pminor, BASE64, pvrsn.minor, 2) && WritesPadded(digits, BASE64, size, 4)
    ensures WritesPadded(gminor, BASE64, if gvrsn.Some? then gvrsn.value.minor else pvrsn.minor, 2)
  {
    var genus := Genus(pvrsn, gvrsn);
    pminor, gminor, digits := Print(B64, pvrsn.minor, 2), Print(B64, genus.minor, 2), Print(B64, size, 4);
    assert Print(B64, 2, 1) == "C";
    PrintWritesPadded(B64, pvrsn.minor, 2);
    PrintWritesPadded(B64, genus.minor, 2);
    PrintWritesPadded(B64, size, 4);
  }

  // ----- main results ------------------------------------------------------------------------

  /** Whatever follows a printed version string, parsing returns the fields it was printed from
      when each fits its width, and refuses otherwise. */
  lemma VersifyDeversify(proto: string, pvrsn: Versionage, kind: string, size: int,
                         gvrsn: Option<Versionage>, vs: string, rest: string)
    requires Terminates(proto, pvrsn, kind, size, gvrsn)
    requires Versify(proto, pvrsn, kind, size, gvrsn) == Ok(vs)
    ensures FieldsFit(pvrsn, size, gvrsn) <==> Deversify(vs + rest).Ok?
    ensures Deversify(vs + rest) == if FieldsFit(pvrsn, size, gvrsn)
                                    then Ok(Reported(proto, pvrsn, kind, size, gvrsn)) else Err(VersionError)
  {
    if pvrsn.major < 2 {
      if FieldsFit(pvrsn, size, gvrsn) {
        FormatHexShape(pvrsn.major, 0);
        FormatHexShape(pvrsn.minor, 0);
        FormatHexShape(size, 6);
        HexWidths(pvrsn.major);
        HexWidths(pvrsn.minor);
        HexWidths(size);
        Parse1(proto, FormatHex(pvrsn.major, 0), FormatHex(pvrsn.minor, 0), kind, FormatHex(size, 6), rest);
      } else {
        Misfit1(proto, pvrsn, kind, size, vs, rest);
      }
    } else {
      var genus := Genus(pvrsn, gvrsn);
      B64Widths(pvrsn.minor);
      B64Widths(genus.minor);
      B64Widths(size);
      if FieldsFit(pvrsn, size, gvrsn) {
        ReadPrint(B64, 2, 1);
        ReadPrint(B64, pvrsn.minor, 2);
        ReadPrint(B64, genus.minor, 2);
        ReadPrint(B64, size, 4);
        Parse2(proto, Print(B64, 2, 1), Print(B64, pvrsn.minor, 2), Print(B64, 2, 1),
               Print(B64, genus.minor, 2), kind, Print(B64, size, 4), rest);
      } else {
        assert Print(B64, 2, 1) == "C";
        Misfit2(proto, Print(B64, pvrsn.minor, 2), Print(B64, genus.minor, 2), kind, Print(B64, size, 4), rest);
      }
    }
  }

  /** The fields a version string can carry: known names, widths respected, and a genus exactly
      in version 2. */
  predicate Canonical(s: Smellage) {
    && Terminates(s.proto, s.pvrsn, s.kind, s.size, s.gvrsn)
    && Versify(s.proto, s.pvrsn, s.kind, s.size, s.gvrsn).Ok?
    && FieldsFit(s.pvrsn, s.size, s.gvrsn)
    && (s.gvrsn.Some? <==> s.pvrsn.major == 2)
  }

  function Text(s: Smellage): string
    requires Canonical(s)
  {
    Versify(s.proto, s.pvrsn, s.kind, s.size, s.gvrsn).value
  }

  lemma Reprint1(full: string, s: Smellage)
    requires |full| == 17 && Matches(Ver1, full, 0) && Rematch(full) == Ok(s)
    ensures Canonical(s) && s.gvrsn == None && Text(s) == full
  {
    assert Fits(Ver1, full, 0, 16);
    DigitsOf(Ver1, full, Hex, 4, 6);
    DigitsOf(Ver1, full, Hex, 10, 16);
    var major, minor, size := full[4..5], full[5..6], full[10..16];
    SingleDigit(Hex, major);
    SingleDigit(Hex, minor);
    PrintRead(Hex, size);
    HexWidths(Read(Hex, size));
    assert full == Text1(full[0..4], major, minor, full[6..10], size);
  }

  lemma SingleDigit(a: Alphabet, s: string)
    requires |s| == 1 && AllDigits(a, s)
    ensures Read(a, s) < Base(a) && Print(a, Read(a, s), 0) == Print(a, Read(a, s), 1) == s
  {
    assert s[..0] == [];
    PrintRead(a, s);
  }

  /** The parts of a version 2 text that parses, and what is read from them. */
  lemma Rematched2(full: string, s: Smellage)
    requires |full| == 19 && Matches(Ver2, full, 0) && Rematch(full) == Ok(s)
    ensures WellSized2(full[0..4], full[4..5], full[5..7], full[7..8], full[8..10], full[10..14], full[14..18])
    ensures s == Smellage(full[0..4], Versionage(2, Read(B64, full[5..7])), full[10..14], Read(B64, full[14..18]),
                          Some(Versionage(2, Read(B64, full[8..10]))))
  {
    DigitsOf(Ver2, full, B64, 4, 10);
    DigitsOf(Ver2, full, B64, 14, 18);
  }

  lemma Joined2(full: string)
    requires |full| == 19 && full[18] == '.'
    ensures full == Text2(full[0..4], full[4..5], full[5..7], full[7..8], full[8..10], full[10..14], full[14..18])
  {
  }

  /** Printing what was read from well-sized parts gives the parts back. */
  lemma Printed2(proto: string, pmajor: string, pminor: string, gmajor: string, gminor: string,
                 kind: string, size: string, s: Smellage)
    requires WellSized2(proto, pmajor, pminor, gmajor, gminor, kind, size)
    requires s == Smellage(proto, Versionage(2, Read(B64, pminor)), kind, Read(B64, size),
                           Some(Versionage(2, Read(B64, gminor))))
    ensures Canonical(s) && Text(s) == Text2(proto, pmajor, pminor, gmajor, gminor, kind, size)
  {
    FixedWidth(pminor);
    FixedWidth(gminor);
    FixedWidth(size);
    PrintRead(B64, pmajor);
    PrintRead(B64, gmajor);
  }

  lemma Reprint2(full: string, s: Smellage)
    requires |full| == 19 && Matches(Ver2, full, 0) && Rematch(full) == Ok(s)
    ensures Canonical(s) && s.gvrsn.Some? && Text(s) == full
  {
    assert Fits(Ver2, full, 0, 18);
    Rematched2(full, s);
    Joined2(full);
    Printed2(full[0..4], full[4..5], full[5..7], full[7..8], full[8..10], full[10..14], full[14..18], s);
  }

  lemma FixedWidth(s: string)
    requires |s| >= 1 && AllDigits(B64, s)
    ensures Print(B64, Read(B64, s), |s|) == s
    ensures |s| == 2 ==> Read(B64, s) < 64 * 64
    ensures |s| == 4 ==> Read(B64, s) < 0x100_0000
  {
    PrintRead(B64, s);
    B64Widths(Read(B64, s));
  }

  /** What the parser accepts, printed again, is what it read. */
  lemma DeversifyVersify(raw: string, s: Smellage)
    requires Deversify(raw) == Ok(s)
    ensures Canonical(s) && SpanOf(s) <= |raw| && Text(s) == raw[..SpanOf(s)]
  {
    var l := MatchAt(raw, 0).value;
    MatchesSlice(l, raw, 0);
    var full := raw[..Span(l)];
    assert raw[0..Span(l)] == full;
    if l == Ver1 {
      Reprint1(full, s);
    } else {
      Reprint2(full, s);
    }
  }

  lemma TextDeversifies(s: Smellage, rest: string)
    requires Canonical(s)
    ensures Deversify(Text(s) + rest) == Ok(s)
  {
    VersifyDeversify(s.proto, s.pvrsn, s.kind, s.size, s.gvrsn, Text(s), rest);
  }

  /** The parser accepts exactly the texts that start with a printed version string. */
  lemma DeversifyExact(raw: string, s: Smellage)
    ensures Deversify(raw) == Ok(s) <==> Canonical(s) && Text(s) <= raw
  {
    if Deversify(raw) == Ok(s) {
      DeversifyVersify(raw, s);
    }
    if Canonical(s) && Text(s) <= raw {
      TextDeversifies(s, raw[|Text(s)|..]);
      assert raw == Text(s) + raw[|Text(s)|..];
    }
  }

  /** No version string is a proper prefix of another. */
  lemma PrefixFree(s: Smellage, t: Smellage)
    requires Canonical(s) && Canonical(t) && Text(s) <= Text(t)
    ensures s == t
  {
    DeversifyExact(Text(t), s);
    DeversifyExact(Text(t), t);
  }

  /** The major version is legible before any other field is read: 0 or 1, or the letter C twice. */
  predicate MajorsRight(l: Layout, raw: string)
    requires |raw| >= Span(l)
  {
    match l
    case Ver1 => raw[4] == '0' || raw[4] == '1'
    case Ver2 => raw[4] == 'C' && raw[7] == 'C'
  }

  function KindSlice(l: Layout, raw: string): string
    requires |raw| >= Span(l)
  {
    if l == Ver1 then raw[6..10] else raw[10..14]
  }

  /** A text that neither layout matches is no version string. */
  lemma DeversifyUnmatched(raw: string)
    ensures !Matches(Ver1, raw, 0) && !Matches(Ver2, raw, 0) ==> Deversify(raw) == Err(VersionError)
  {
  }

  /** Which error a refusal raises: the first wrong field decides, protocol before version before kind. */
  lemma DeversifyFaults(raw: string, l: Layout)
    requires Matches(l, raw, 0)
    ensures Deversify(raw) == Err(ProtocolError) <==> raw[..4] !in GENUINE
    ensures Deversify(raw) == Err(VersionError) <==> raw[..4] in GENUINE && !MajorsRight(l, raw)
    ensures Deversify(raw) == Err(KindError) <==>
            raw[..4] in GENUINE && MajorsRight(l, raw)
            && (KindSlice(l, raw) !in SERIALS || (l == Ver1 && KindSlice(l, raw) == "CESR"))
    ensures Deversify(raw) != Err(ShortageError)
  {
    assert MatchAt(raw, 0) == Some(l) by {
      if Matches(Ver1, raw, 0) {
        assert Fits(Ver1, raw, 0, 10);
        if |raw| >= 19 { assert !Fits(Ver2, raw, 0, 10); }
      }
    }
    var full := raw[..Span(l)];
    MatchesSlice(l, raw, 0);
    assert raw[0..Span(l)] == full;
    assert full[0..4] == raw[..4];
    assert Fits(l, full, 0, Span(l) - 1) && Fits(l, full, 0, 4) && Fits(l, full, 0, 7);
    ReadOne(full[4..5]);
    ReadOne(full[7..8]);
    assert KindSlice(l, raw) == if l == Ver1 then full[6..10] else full[10..14];
  }

  lemma ReadOne(s: string)
    requires |s| == 1
    ensures IsDigit(Hex, s[0]) ==> AllDigits(Hex, s) && (Read(Hex, s) <= 1 <==> s[0] == '0' || s[0] == '1')
    ensures IsDigit(B64, s[0]) ==> AllDigits(B64, s) && (Read(B64, s) == 2 <==> s[0] == 'C')
  {
    assert s[..0] == [];
  }
}
