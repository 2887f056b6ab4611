/** Positional numerals, most significant digit first, left-padded with the zero digit. */
module Numerals {

  /** Lower-case hexadecimal, the URL-safe alphabet of section 5 of RFC 4648, and decimal. */
  datatype Alphabet = Hex | B64 | Dec

  function Base(a: Alphabet): (b: nat)
    ensures b >= 2
  {
    match a
    case Hex => 16
    case B64 => 64
    case Dec => 10
  }

  predicate IsUpper(c: char) {
    'A' <= c <= 'Z'
  }

  predicate IsDigit(a: Alphabet, c: char) {
    match a
    case Hex => '0' <= c <= '9' || 'a' <= c <= 'f'
    case B64 => IsUpper(c) || 'a' <= c <= 'z' || '0' <= c <= '9' || c == '-' || c == '_'
    case Dec => '0' <= c <= '9'
  }

  predicate AllDigits(a: Alphabet, s: string) {
    forall i | 0 <= i < |s| :: IsDigit(a, s[i])
  }

  function DigitChar(a: Alphabet, d: nat): (c: char)
    requires d < Base(a)
    ensures IsDigit(a, c) && DigitValue(a, c) == d
  {
    match a
    case Hex => if d < 10 then (48 + d) as char else (87 + d) as char
    case B64 =>
      if d < 26 then (65 + d) as char
      else if d < 52 then (71 + d) as char
      else if d < 62 then (d - 4) as char
      else if d == 62 then '-' else '_'
    case Dec => (48 + d) as char
  }

  function DigitValue(a: Alphabet, c: char): (d: nat)
    requires IsDigit(a, c)
    ensures d < Base(a)
  {
    match a
    case Hex => if c <= '9' then c as int - 48 else c as int - 87
    case B64 =>
      if c == '-' then 62
      else if c == '_' then 63
      else if c <= '9' then c as int + 4
      else if c <= 'Z' then c as int - 65
      else c as int - 71
    case Dec => c as int - 48
  }

  lemma DigitCharOfValue(a: Alphabet, c: char)
    requires IsDigit(a, c)
    ensures DigitChar(a, DigitValue(a, c)) == c
  {
  }

  /** The digits of an alphabet, in the order of their values. */
  const UPPER := "ABCDEFGHIJKLMNOPQRSTUVWXYZ"
  const LOWER := "abcdefghijklmnopqrstuvwxyz"
  const DECIMAL := "0123456789"
  const HEXADECIMAL := "0123456789abcdef"
  const BASE64 := UPPER + LOWER + DECIMAL + "-_"

  function Digits(a: Alphabet): string {
    match a
    case Hex => HEXADECIMAL
    case B64 => BASE64
    case Dec => DECIMAL
  }

  lemma Letters(d: nat)
    ensures d < 26 ==> UPPER[d] == (65 + d) as char && LOWER[d] == (97 + d) as char
    ensures d < 10 ==> DECIMAL[d] == (48 + d) as char
    ensures d < 16 ==> HEXADECIMAL[d] == if d < 10 then (48 + d) as char else (87 + d) as char
  {
  }

  lemma IsUpperExact(c: char)
    ensures IsUpper(c) <==> c in UPPER
  {
    if IsUpper(c) {
      Letters(c as int - 65);
      assert UPPER[c as int - 65] == c;
    }
    if c in UPPER {
      var d: nat :| d < 26 && UPPER[d] == c;
      Letters(d);
    }
  }

  lemma Base64Digits(d: nat)
    requires d < 64
    ensures |BASE64| == 64 && DigitChar(B64, d) == BASE64[d]
  {
    Letters(d);
    if 26 <= d { Letters(d - 26); }
    if 52 <= d { Letters(d - 52); }
  }

  /** The digit of value d is the d-th of its alphabet. */
  lemma DigitsExact(a: Alphabet, d: nat)
    requires d < Base(a)
    ensures |Digits(a)| == Base(a) && DigitChar(a, d) == Digits(a)[d]
  {
    match a
    case Hex => Letters(d);
    case B64 => Base64Digits(d);
    case Dec => Letters(d);
  }

  lemma IsDigitExact(a: Alphabet, c: char)
    ensures IsDigit(a, c) <==> c in Digits(a)
  {
    if IsDigit(a, c) {
      DigitsExact(a, DigitValue(a, c));
      DigitCharOfValue(a, c);
      assert Digits(a)[DigitValue(a, c)] == c;
    }
    if c in Digits(a) {
      DigitsExact(a, 0);
      var d: nat :| d < |Digits(a)| && Digits(a)[d] == c;
      DigitsExact(a, d);
    }
  }

  /** The numeral of n, at least w and at least one digit long. */
  function Print(a: Alphabet, n: nat, w: nat): (s: string)
    ensures |s| >= 1 && |s| >= w && AllDigits(a, s)
    decreases n + w
  {
    if n < Base(a) && w <= 1 then [DigitChar(a, n)]
    else Print(a, n / Base(a), if w == 0 then 0 else w - 1) + [DigitChar(a, n % Base(a))]
  }

  /** The number a digit string denotes. */
  function Read(a: Alphabet, s: string): nat
    requires AllDigits(a, s)
  {
    if s == [] then 0
    else Read(a, s[..|s| - 1]) * Base(a) + DigitValue(a, s[|s| - 1])
  }

  function Pow(b: nat, e: nat): (p: nat)
    requires b >= 1
    ensures p >= 1
  {
    if e == 0 then 1 else b * Pow(b, e - 1)
  }

  lemma {:induction false} ReadPrint(a: Alphabet, n: nat, w: nat)
    ensures Read(a, Print(a, n, w)) == n
    decreases n + w
  {
    var s, b := Print(a, n, w), Base(a);
    if n < b && w <= 1 {
      assert s[..0] == [];
    } else {
      var w' := if w == 0 then 0 else w - 1;
      ReadPrint(a, n / b, w');
      ReadAppend(a, Print(a, n / b, w'), DigitChar(a, n % b));
    }
  }

  lemma ReadAppend(a: Alphabet, s: string, c: char)
    requires AllDigits(a, s) && IsDigit(a, c)
    ensures AllDigits(a, s + [c])
    ensures Read(a, s + [c]) == Read(a, s) * Base(a) + DigitValue(a, c)
  {
    assert (s + [c])[..|s|] == s;
  }

  /** A numeral keeps to w digits exactly when the number is below base^w. */
  lemma {:induction false} PrintWidth(a: Alphabet, n: nat, w: nat)
    requires w >= 1
    ensures |Print(a, n, w)| == w <==> n < Pow(Base(a), w)
  {
    var b := Base(a);
    if w == 1 {
      assert Pow(b, 1) == b * Pow(b, 0) == b;
      if n >= b {
        assert |Print(a, n, w)| == |Print(a, n / b, 0)| + 1;
      }
    } else {
      PrintWidth(a, n / b, w - 1);
      DivLess(n, b, Pow(b, w - 1));
    }
  }

  lemma MulMonotone(b: nat, x: nat, y: nat)
    requires x <= y
    ensures b * x <= b * y
  {
    assert b * y == b * x + b * (y - x);
  }

  lemma DivLess(n: nat, b: nat, p: nat)
    requires b >= 1
    ensures n / b < p <==> n < b * p
  {
    var q, r := n / b, n % b;
    assert n == b * q + r;
    if q < p {
      MulMonotone(b, q + 1, p);
      assert b * (q + 1) == b * q + b;
    } else {
      MulMonotone(b, p, q);
    }
  }

  /** Printing what a digit string denotes, at its own width, gives the string back. */
  lemma {:induction false} PrintRead(a: Alphabet, s: string)
    requires |s| >= 1 && AllDigits(a, s)
    ensures Print(a, Read(a, s), |s|) == s
  {
    if |s| == 1 {
      PrintReadOne(a, s);
    } else {
      PrintRead(a, s[..|s| - 1]);
      PrintReadMore(a, s);
    }
  }

  lemma PrintReadOne(a: Alphabet, s: string)
    requires |s| == 1 && AllDigits(a, s)
    ensures Read(a, s) == DigitValue(a, s[0]) && Print(a, Read(a, s), 1) == s
  {
    DigitCharOfValue(a, s[0]);
    assert s[..0] == [];
    assert Read(a, s) == DigitValue(a, s[0]);
  }

  lemma PrintReadMore(a: Alphabet, s: string)
    requires |s| > 1 && AllDigits(a, s) && Print(a, Read(a, s[..|s| - 1]), |s| - 1) == s[..|s| - 1]
    ensures Print(a, Read(a, s), |s|) == s
  {
    DigitCharOfValue(a, s[|s| - 1]);
    LastOf(s);
    PrintAppended(a, Read(a, s[..|s| - 1]), DigitValue(a, s[|s| - 1]), |s| - 1, Read(a, s));
  }

  lemma LastOf(s: string)
    requires s != ""
    ensures s == s[..|s| - 1] + [s[|s| - 1]]
  {
  }

  lemma PrintAppended(a: Alphabet, q: nat, d: nat, w: nat, n: nat)
    requires d < Base(a) && w >= 1 && n == q * Base(a) + d
    ensures Print(a, n, w + 1) == Print(a, q, w) + [DigitChar(a, d)]
  {
    PrintAppend(a, q, d, w);
  }

  lemma PrintAppend(a: Alphabet, q: nat, d: nat, w: nat)
    requires d < Base(a) && w >= 1
    ensures Print(a, q * Base(a) + d, w + 1) == Print(a, q, w) + [DigitChar(a, d)]
  {
    DivModUnique(q, Base(a), d);
  }

  lemma DivModUnique(q: nat, b: nat, r: nat)
    requires r < b
    ensures (q * b + r) / b == q && (q * b + r) % b == r
  {
    var n := q * b + r;
    var k := n / b - q;
    assert b * k == r - n % b by {
      assert b * (n / b) + n % b == n;
      assert b * k == b * (n / b) - b * q;
    }
    assert k == 0 by {
      MulAtLeast(b, k);
      MulAtLeast(b, -k);
      assert b * -k == -(b * k);
    }
  }

  lemma MulAtLeast(b: nat, k: int)
    ensures k >= 1 ==> b * k >= b
  {
  }

  lemma PrintSplits(a: Alphabet, n: nat, w: nat)
    requires |Print(a, n, w)| > 1
    ensures Print(a, n, w) == Print(a, n / Base(a), Narrower(w)) + [DigitChar(a, n % Base(a))]
  {
  }

  /** What is left of n when the last i digits are cut off. */
  function Shifted(a: Alphabet, n: nat, i: nat): nat {
    if i == 0 then n else Shifted(a, n / Base(a), i - 1)
  }

  lemma LastDigit(a: Alphabet, n: nat, w: nat)
    ensures var s := Print(a, n, w); s[|s| - 1] == DigitChar(a, n % Base(a))
  {
    if n < Base(a) {
      DivModUnique(0, Base(a), n);
    }
  }

  /** The digit i places from the right of the numeral of n. */
  predicate HasPlace(a: Alphabet, s: string, n: nat, i: nat) {
    i < |s| && s[|s| - 1 - i] == DigitChar(a, Shifted(a, n, i) % Base(a))
  }

  lemma PlaceMore(a: Alphabet, front: string, c: char, n: nat, i: nat)
    requires i > 0 && HasPlace(a, front, n / Base(a), i - 1)
    ensures HasPlace(a, front + [c], n, i)
  {
  }

  function Narrower(w: nat): nat {
    if w == 0 then 0 else w - 1
  }

  predicate Placed(a: Alphabet, n: nat, w: nat, i: nat) {
    HasPlace(a, Print(a, n, w), n, i)
  }

  lemma FirstPlace(a: Alphabet, n: nat, w: nat)
    ensures Placed(a, n, w, 0)
  {
    LastDigit(a, n, w);
  }

  lemma NextPlace(a: Alphabet, n: nat, w: nat, i: nat)
    requires 0 < i < |Print(a, n, w)| && Placed(a, n / Base(a), Narrower(w), i - 1)
    ensures Placed(a, n, w, i)
  {
    PrintSplits(a, n, w);
    PlaceMore(a, Print(a, n / Base(a), Narrower(w)), DigitChar(a, n % Base(a)), n, i);
  }

  lemma ShorterByOne(a: Alphabet, n: nat, w: nat)
    requires |Print(a, n, w)| > 1
    ensures |Print(a, n / Base(a), Narrower(w))| == |Print(a, n, w)| - 1
  {
    PrintSplits(a, n, w);
  }

  lemma {:induction false} PrintPlace(a: Alphabet, n: nat, w: nat, i: nat)
    requires i < |Print(a, n, w)|
    ensures Placed(a, n, w, i)
    decreases i
  {
    if i == 0 {
      FirstPlace(a, n, w);
    } else {
      ShorterByOne(a, n, w);
      PrintPlace(a, n / Base(a), Narrower(w), i - 1);
      NextPlace(a, n, w, i);
    }
  }

  lemma {:induction false} ShiftedExact(a: Alphabet, n: nat, i: nat)
    ensures Shifted(a, n, i) == n / Pow(Base(a), i)
    decreases i
  {
    if i > 0 {
      ShiftedExact(a, n / Base(a), i - 1);
      PowerOfNext(a, n, i);
    }
  }

  /** s is n in the given digits, most significant first: the digit i places from the right is that of n div base^i
      mod base, where the base is the number of digits there are. */
  ghost predicate Writes(s: string, digits: string, n: nat) {
    |digits| >= 1 && forall i: nat | i < |s| :: WritesAt(s, digits, n, i)
  }

  predicate WritesAt(s: string, digits: string, n: nat, i: nat)
    requires |digits| >= 1 && i < |s|
  {
    s[|s| - 1 - i] == digits[n / Pow(|digits|, i) % |digits|]
  }

  lemma PrintWrites(a: Alphabet, n: nat, w: nat)
    ensures Writes(Print(a, n, w), Digits(a), n)
  {
    var s := Print(a, n, w);
    DigitsExact(a, 0);
    forall i: nat | i < |s| ensures WritesAt(s, Digits(a), n, i) {
      PrintPlace(a, n, w, i);
      ShiftedExact(a, n, i);
      DigitOf(a, s, n, i, |Digits(a)|);
    }
  }

  lemma DigitOf(a: Alphabet, s: string, n: nat, i: nat, b: nat)
    requires HasPlace(a, s, n, i) && Shifted(a, n, i) == n / Pow(Base(a), i) && b == Base(a)
    ensures |Digits(a)| == b && s[|s| - 1 - i] == Digits(a)[n / Pow(b, i) % b]
  {
    DigitsExact(a, Shifted(a, n, i) % Base(a));
  }

  lemma PowerOfNext(a: Alphabet, n: nat, i: nat)
    requires i > 0
    ensures n / Pow(Base(a), i) == n / Base(a) / Pow(Base(a), i - 1)
  {
    DivTwice(n, Base(a), Pow(Base(a), i - 1));
  }

  lemma Expand(b: nat, p: nat, q: nat, y: nat, m: nat)
    requires m == p * q + y
    ensures b * m == q * (b * p) + b * y
  {
  }

  lemma RestIsSmall(b: nat, p: nat, y: nat, x: nat)
    requires y < p && x < b
    ensures b * y + x < b * p
  {
    MulMonotone(b, y + 1, p);
    assert b * (y + 1) == b * y + b;
  }

  lemma Quotient(n: nat, b: nat, q: nat, r: nat)
    requires r < b && n == q * b + r
    ensures n / b == q
  {
    DivModUnique(q, b, r);
  }

  lemma DivTwiceBy(n: nat, b: nat, p: nat, m: nat, x: nat, q: nat, y: nat)
    requires n == b * m + x && x < b && m == p * q + y && y < p
    ensures n / (b * p) == q
  {
    Expand(b, p, q, y, m);
    RestIsSmall(b, p, y, x);
    Quotient(n, b * p, q, b * y + x);
  }

  lemma DivTwice(n: nat, b: nat, p: nat)
    requires b >= 1 && p >= 1
    ensures n / (b * p) == n / b / p
  {
    var m := n / b;
    assert n == b * m + n % b && m == p * (m / p) + m % p;
    DivTwiceBy(n, b, p, m, n % b, m / p, m % p);
  }

  lemma PrintInjective(a: Alphabet, m: nat, n: nat, w: nat)
    requires Print(a, m, w) == Print(a, n, w)
    ensures m == n
  {
    ReadPrint(a, m, w);
    ReadPrint(a, n, w);
  }

  /** s is n in the given digits, with zeros in front up to the width w, and no others. */
  ghost predicate WritesPadded(s: string, digits: string, n: nat, w: nat) {
    && Writes(s, digits, n) && |s| >= 1 && |s| >= w && n < Pow(|digits|, |s|)
    && (|s| > 1 && |s| > w ==> n >= Pow(|digits|, |s| - 1))
  }

  lemma {:induction false} PrintLength(a: Alphabet, n: nat, w: nat)
    ensures var l := |Print(a, n, w)|; n < Pow(Base(a), l) && (l > 1 && l > w ==> n >= Pow(Base(a), l - 1))
    decreases n + w
  {
    var b, l := Base(a), |Print(a, n, w)|;
    if l == 1 {
      assert Pow(b, 1) == b * Pow(b, 0) == b;
    } else {
      ShorterByOne(a, n, w);
      PrintLength(a, n / b, Narrower(w));
      DivLess(n, b, Pow(b, l - 1));
      if l > w {
        MoreThanFront(a, n, w);
      }
    }
  }

  lemma MoreThanFront(a: Alphabet, n: nat, w: nat)
    requires var l := |Print(a, n, w)|;
             l > 1 && l > w && (l > 2 ==> n / Base(a) >= Pow(Base(a), l - 2))
    ensures n >= Pow(Base(a), |Print(a, n, w)| - 1)
  {
    var b, l := Base(a), |Print(a, n, w)|;
    if l == 2 {
      assert Pow(b, 1) == b * Pow(b, 0) == b;
    } else {
      DivLess(n, b, Pow(b, l - 2));
    }
  }

  /** Printing pads with zeros exactly as far as the width asks for. */
  lemma PrintWritesPadded(a: Alphabet, n: nat, w: nat)
    ensures WritesPadded(Print(a, n, w), Digits(a), n, w)
  {
    PrintWrites(a, n, w);
    PrintLength(a, n, w);
    DigitsExact(a, 0);
  }
}
