/** The Base64 integer conversions the version string is printed and read with. */
module Helping {
  import opened Outcomes
  import opened Numerals

  datatype Fault = ValueError | KeyError

  function Zeros(a: Alphabet, k: nat): (s: string)
    ensures |s| == k
  {
    seq(k, _ => DigitChar(a, 0))
  }

  function Padding(a: Alphabet, n: nat, w: nat): nat {
    var p := |Print(a, n, 0)|;
    if w <= p then 0 else w - p
  }

  /** A minimum width only adds leading zeros. */
  lemma {:induction false} PrintPadding(a: Alphabet, n: nat, w: nat)
    ensures Print(a, n, w) == Zeros(a, Padding(a, n, w)) + Print(a, n, 0)
    decreases n + w
  {
    var b := Base(a);
    if n < b {
      if w > 1 {
        PrintPadding(a, 0, w - 1);
        PadOneDigit(a, n, w);
      }
    } else if w > 0 {
      PrintPadding(a, n / b, w - 1);
      PadLongNumeral(a, n, w);
    }
  }

  lemma PadOneDigit(a: Alphabet, n: nat, w: nat)
    requires n < Base(a) && w > 1
    requires Print(a, 0, w - 1) == Zeros(a, Padding(a, 0, w - 1)) + Print(a, 0, 0)
    ensures Print(a, n, w) == Zeros(a, Padding(a, n, w)) + Print(a, n, 0)
  {
    SmallDivision(n, Base(a));
    assert Zeros(a, w - 2) + [DigitChar(a, 0)] == Zeros(a, w - 1);
  }

  lemma PadLongNumeral(a: Alphabet, n: nat, w: nat)
    requires n >= Base(a) && w > 0
    requires Print(a, n / Base(a), w - 1)
          == Zeros(a, Padding(a, n / Base(a), w - 1)) + Print(a, n / Base(a), 0)
    ensures Print(a, n, w) == Zeros(a, Padding(a, n, w)) + Print(a, n, 0)
  {
    assert Print(a, n, 0) == Print(a, n / Base(a), 0) + [DigitChar(a, n % Base(a))];
  }

  lemma SmallDivision(n: nat, b: nat)
    requires n < b
    ensures n / b == 0 && n % b == n
  {
  }

  lemma {:induction false} ReadPrepend(a: Alphabet, c: char, s: string)
    requires IsDigit(a, c) && AllDigits(a, s)
    ensures AllDigits(a, [c] + s)
    ensures Read(a, [c] + s) == DigitValue(a, c) * Pow(Base(a), |s|) + Read(a, s)
  {
    var b, v := Base(a), DigitValue(a, c);
    if s == [] {
      assert ([c] + s)[..0] == [];
    } else {
      var front, last := s[..|s| - 1], s[|s| - 1];
      ReadPrepend(a, c, front);
      assert [c] + s == ([c] + front) + [last];
      ReadAppend(a, [c] + front, last);
      Distribute(v, Pow(b, |front|), Read(a, front), b);
    }
  }

  lemma Distribute(v: nat, p: nat, r: nat, b: nat)
    ensures (v * p + r) * b == v * (b * p) + r * b
  {
  }

  lemma PopDigit(n: nat, d: string)
    ensures Print(B64, n, 0) + d
         == (if n < 64 then "" else Print(B64, n / 64, 0)) + ([DigitChar(B64, n % 64)] + d)
  {
  }

  /** The digits are produced least significant first and pushed to the left of a deque. */
  method IntToB64(i: nat, l: nat) returns (d: string)
    ensures d == if l == 0 then "" else Print(B64, i, l)
  {
    d := "";
    var n := i;
    while l != 0
      invariant l == 0 ==> d == ""
      invariant Print(B64, i, 0) == Print(B64, n, 0) + d
      decreases n
    {
      PopDigit(n, d);
      d := [DigitChar(B64, n % 64)] + d;
      n := n / 64;
      if n == 0 {
        assert d == Print(B64, i, 0);
        break;
      }
    }
    d := PadLeft(d, l);
    if l != 0 {
      PrintPadding(B64, i, l);
    }
  }

  method PadLeft(digits: string, l: nat) returns (d: string)
    ensures d == Zeros(B64, if |digits| < l then l - |digits| else 0) + digits
    ensures l == 0 ==> d == digits
  {
    d := digits;
    for j := 0 to if |digits| < l then l - |digits| else 0
      invariant d == Zeros(B64, j) + digits
    {
      d := "A" + d;
      assert "A" + Zeros(B64, j) == Zeros(B64, j + 1);
    }
  }

  /** The digits are read from the right, each worth 64 times the one before. */
  method B64ToInt(s: string) returns (r: Result<nat, Fault>)
    ensures r == if s == "" then Err(ValueError)
                 else if AllDigits(B64, s) then Ok(Read(B64, s)) else Err(KeyError)
  {
    if s == "" {
      return Err(ValueError);
    }
    var i := 0;
    for e := 0 to |s|
      invariant AllDigits(B64, s[|s| - e..]) && i == Read(B64, s[|s| - e..])
    {
      var c := s[|s| - 1 - e];
      if !IsDigit(B64, c) {
        return Err(KeyError);
      }
      ReadPrepend(B64, c, s[|s| - e..]);
      assert [c] + s[|s| - e..] == s[|s| - 1 - e..];
      i := i + DigitValue(B64, c) * Pow(64, e);
    }
    assert s[0..] == s;
    return Ok(i);
  }
}
