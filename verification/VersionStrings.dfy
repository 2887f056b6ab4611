/** The KERI/ACDC version string: its printer, its parser, and the sniffer that finds one near
    the front of a message. Text is a sequence of characters; a byte is a character below 256,
    so every result holds in particular for all byte strings. */
module VersionStrings {
  import opened Outcomes
  import opened Numerals

  datatype Versionage = Versionage(major: int, minor: int)

  datatype Smellage = Smellage(proto: string, pvrsn: Versionage, kind: string, size: int,
                               gvrsn: Option<Versionage>)

  datatype Fault = ProtocolError | VersionError | KindError | ShortageError

  const PROTOCOLS := {"KERI", "ACDC"}
  const KINDS := {"JSON", "MGPK", "CBOR", "CESR"}
  const CESR := "CESR"
  const VER_RAW_SIZE_1 := 6
  const MAX_VS_OFFSET := 8
  const SMELL_SIZE := 27

  // ----- the two layouts ---------------------------------------------------------------------

  datatype Layout = Ver1 | Ver2

  /** A character class of the version-string patterns. */
  datatype CharClass = UpperCase | HexDigit | B64Digit | Underscore | Dot

  function Span(l: Layout): nat {
    match l
    case Ver1 => 17
    case Ver2 => 19
  }

  /** VEREX1 and VEREX2, position by position. */
  function ClassAt(l: Layout, k: nat): CharClass
    requires k < Span(l)
  {
    match l
    case Ver1 =>
      if k < 4 then UpperCase else if k < 6 then HexDigit
      else if k < 10 then UpperCase else if k < 16 then HexDigit
      else Underscore
    case Ver2 =>
      if k < 4 then UpperCase else if k < 10 then B64Digit
      else if k < 14 then UpperCase else if k < 18 then B64Digit
      else Dot
  }

  predicate InClass(c: char, k: CharClass) {
    match k
    case UpperCase => IsUpper(c)
    case HexDigit => IsDigit(Hex, c)
    case B64Digit => IsDigit(B64, c)
    case Underscore => c == '_'
    case Dot => c == '.'
  }

  predicate Fits(l: Layout, raw: string, o: nat, k: nat)
    requires k < Span(l) && o + k < |raw|
  {
    InClass(raw[o + k], ClassAt(l, k))
  }

  /** The pattern of layout l matches raw at offset o. */
  predicate Matches(l: Layout, raw: string, o: nat) {
    o + Span(l) <= |raw| && forall k: nat | k < Span(l) :: Fits(l, raw, o, k)
  }

  // ----- parsing -----------------------------------------------------------------------------

  /** Rever.match at offset o: the alternation tries version 2 first. */
  function MatchAt(raw: string, o: nat): (m: Option<Layout>)
    ensures m.Some? ==> Matches(m.value, raw, o)
    ensures m.None? ==> !Matches(Ver1, raw, o) && !Matches(Ver2, raw, o)
  {
    if Matches(Ver2, raw, o) then Some(Ver2)
    else if Matches(Ver1, raw, o) then Some(Ver1)
    else None
  }

  datatype Found = Found(layout: Layout, start: nat)

  /** Rever.search from offset o on: the least offset at which the alternation matches. */
  function Search(raw: string, o: nat): (m: Option<Found>)
    requires o <= |raw|
    ensures m.Some? ==> o <= m.value.start && Matches(m.value.layout, raw, m.value.start)
    ensures m.Some? ==> forall l, i: nat | o <= i < m.value.start :: !Matches(l, raw, i)
    ensures m.None? ==> forall l, i: nat | o <= i :: !Matches(l, raw, i)
    decreases |raw| - o
  {
    match MatchAt(raw, o)
    case Some(l) => Some(Found(l, o))
    case None => if o == |raw| then None else Search(raw, o + 1)
  }

  /** rematch: decode the full matched string. */
  function Rematch(full: string): (r: Result<Smellage, Fault>)
    requires (|full| == 19 && Matches(Ver2, full, 0)) || (|full| == 17 && Matches(Ver1, full, 0))
  {
    if |full| == Span(Ver2) && full[|full| - 1] == '.' then
      DigitsOf(Ver2, full, B64, 4, 10);
      DigitsOf(Ver2, full, B64, 14, 18);
      var proto := full[0..4];
      if proto !in PROTOCOLS then Err(ProtocolError) else
      var pvrsn := Versionage(Read(B64, full[4..5]), Read(B64, full[5..7]));
      if pvrsn.major != 2 then Err(VersionError) else
      var gvrsn := Versionage(Read(B64, full[7..8]), Read(B64, full[8..10]));
      if gvrsn.major != 2 then Err(VersionError) else
      var kind := full[10..14];
      if kind !in KINDS then Err(KindError) else
      Ok(Smellage(proto, pvrsn, kind, Read(B64, full[14..18]), Some(gvrsn)))
    else if |full| == Span(Ver1) && full[|full| - 1] == '_' then
      DigitsOf(Ver1, full, Hex, 4, 6);
      DigitsOf(Ver1, full, Hex, 10, 16);
      var proto := full[0..4];
      if proto !in PROTOCOLS then Err(ProtocolError) else
      var pvrsn := Versionage(Read(Hex, full[4..5]), Read(Hex, full[5..6]));
      if pvrsn.major > 1 then Err(VersionError) else
      var kind := full[6..10];
      if kind !in KINDS then Err(KindError) else
      if kind == CESR then Err(KindError) else
      Ok(Smellage(proto, pvrsn, kind, Read(Hex, full[10..16]), None))
    else
      Err(VersionError)
  }

  lemma DigitsOf(l: Layout, full: string, a: Alphabet, lo: nat, hi: nat)
    requires |full| == Span(l) && Matches(l, full, 0) && lo <= hi <= |full|
    requires (l == Ver2 && a == B64 && (4 <= lo <= hi <= 10 || 14 <= lo <= hi <= 18))
          || (l == Ver1 && a == Hex && (4 <= lo <= hi <= 6 || 10 <= lo <= hi <= 16))
    ensures forall i, j | lo <= i <= j <= hi :: AllDigits(a, full[i..j])
  {
    forall i | lo <= i < hi ensures IsDigit(a, full[i]) {
      assert Fits(l, full, 0, i);
    }
  }

  function Deversify(vs: string): Result<Smellage, Fault> {
    match MatchAt(vs, 0)
    case None => Err(VersionError)
    case Some(l) => MatchesSlice(l, vs, 0); Rematch(vs[..Span(l)])
  }

  lemma MatchesSlice(l: Layout, raw: string, o: nat)
    requires Matches(l, raw, o)
    ensures Matches(l, raw[o..o + Span(l)], 0)
  {
    var full := raw[o..o + Span(l)];
    forall k: nat | k < Span(l) ensures Fits(l, full, 0, k) {
      assert Fits(l, raw, o, k);
    }
  }

  function Smell(raw: string): Result<Smellage, Fault> {
    if |raw| < SMELL_SIZE then Err(ShortageError) else
    match Search(raw, 0)
    case None => Err(VersionError)
    case Some(m) =>
      if m.start > MAX_VS_OFFSET then Err(VersionError)
      else MatchesSlice(m.layout, raw, m.start); Rematch(raw[m.start..m.start + Span(m.layout)])
  }

  // ----- printing ----------------------------------------------------------------------------

  /** Python's "{:0{w}x}" format: the sign counts towards the width. */
  function FormatHex(i: int, w: nat): string {
    if i < 0 then "-" + Print(Hex, -i, if w == 0 then 0 else w - 1) else Print(Hex, i, w)
  }

  function Genus(pvrsn: Versionage, gvrsn: Option<Versionage>): Versionage {
    if gvrsn.Some? then gvrsn.value else pvrsn
  }

  /** Base64 printing of a negative number never returns, so version 2 needs naturals. */
  predicate Terminates(proto: string, pvrsn: Versionage, kind: string, size: int, gvrsn: Option<Versionage>) {
    proto in PROTOCOLS && kind in KINDS && pvrsn.major == 2 && Genus(pvrsn, gvrsn).major == 2 ==>
      pvrsn.minor >= 0 && Genus(pvrsn, gvrsn).minor >= 0 && size >= 0
  }

  function Versify(proto: string, pvrsn: Versionage, kind: string, size: int, gvrsn: Option<Versionage>)
    : Result<string, Fault>
    requires Terminates(proto, pvrsn, kind, size, gvrsn)
  {
    if proto !in PROTOCOLS then Err(ProtocolError)
    else if kind !in KINDS then Err(KindError)
    else if pvrsn.major < 2 then
      if gvrsn.Some? && gvrsn.value != pvrsn then Err(VersionError)
      else if kind == CESR then Err(KindError)
      else Ok(proto + FormatHex(pvrsn.major, 0) + FormatHex(pvrsn.minor, 0) + kind
              + FormatHex(size, VER_RAW_SIZE_1) + "_")
    else if pvrsn.major == 2 then
      var genus := Genus(pvrsn, gvrsn);
      if genus.major != 2 then Err(VersionError)
      else Ok(proto + Print(B64, pvrsn.major, 1) + Print(B64, pvrsn.minor, 2)
              + Print(B64, genus.major, 1) + Print(B64, genus.minor, 2)
              + kind + Print(B64, size, 4) + ".")
    else Err(VersionError)
  }
}
