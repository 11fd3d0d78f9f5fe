/**
 * Decimal text of integers, as Python's `str(n)` / `f"{n}"` produce it, and
 * the zero-padded `f"{n:04d}"` of a non-negative number, together with a
 * parser that reads such text back, so that every formatted number can be
 * shown to be recoverable.
 */
module Decimal {

  predicate IsDigit(c: char) { '0' <= c <= '9' }

  predicate AllDigits(s: string) { forall i :: 0 <= i < |s| ==> IsDigit(s[i]) }

  function DigitChar(d: nat): (c: char)
    requires d < 10
    ensures IsDigit(c) && c as int - '0' as int == d
  {
    ('0' as int + d) as char
  }

  function DigitValue(c: char): int { c as int - '0' as int }

  /** The shortest decimal text of `n`: no sign, no leading zero (except for 0 itself). */
  function NatToDecimal(n: nat): (s: string)
    ensures 1 <= |s|
    ensures AllDigits(s)
    ensures n > 0 ==> s[0] != '0'
    decreases n
  {
    if n < 10 then [DigitChar(n)] else NatToDecimal(n / 10) + [DigitChar(n % 10)]
  }

  /** Python's decimal text of an `int`: a leading '-' for a negative number. */
  function IntToDecimal(n: int): (s: string)
    ensures 1 <= |s| && (s[0] == '-' <==> n < 0)
    ensures ParseInt(s) == n
  {
    if n < 0 then
      var digits := NatToDecimal(-n);
      ParseNatToDecimal(-n);
      assert ("-" + digits)[1..] == digits;
      "-" + digits
    else
      ParseNatToDecimal(n);
      NatToDecimal(n)
  }

  /** Reads a string of digits back as a number, most significant digit first. */
  function ParseDecimal(s: string): int
  {
    if s == [] then 0 else 10 * ParseDecimal(s[..|s| - 1]) + DigitValue(s[|s| - 1])
  }

  /** Reads an optionally '-'-signed string of digits. */
  function ParseInt(s: string): int
  {
    if |s| > 0 && s[0] == '-' then -ParseDecimal(s[1..]) else ParseDecimal(s)
  }

  function Zeros(k: nat): (z: string)
  {
    seq(k, _ => '0')
  }

  /**
   * Left-pads `s` with '0' up to `width` characters; longer text is kept
   * whole. Applied to the digits of a non-negative number this is `:0{width}d`.
   */
  function ZeroPad(s: string, width: nat): (r: string)
    ensures |r| == if |s| < width then width else |s|
    ensures r[|r| - |s|..] == s
    ensures r[..|r| - |s|] == Zeros(|r| - |s|)
  {
    if |s| < width then Zeros(width - |s|) + s else s
  }

  function Pow10(k: nat): (p: nat)
    ensures p >= 1
  {
    if k == 0 then 1 else 10 * Pow10(k - 1)
  }

  lemma {:induction false} ParseNatToDecimal(n: nat)
    ensures ParseDecimal(NatToDecimal(n)) == n
    decreases n
  {
    var s := NatToDecimal(n);
    if n < 10 {
      assert s[..|s| - 1] == [];
    } else {
      assert s[..|s| - 1] == NatToDecimal(n / 10);
      ParseNatToDecimal(n / 10);
    }
  }

  /** Distinct integers have distinct decimal text. */
  lemma IntToDecimalInjective(a: int, b: int)
    ensures IntToDecimal(a) == IntToDecimal(b) <==> a == b
  {
    var sa, sb := IntToDecimal(a), IntToDecimal(b);
    assert ParseInt(sa) == a && ParseInt(sb) == b;
  }

  lemma {:induction false} ParseZeros(k: nat)
    ensures ParseDecimal(Zeros(k)) == 0
  {
    if k > 0 {
      assert Zeros(k)[..k - 1] == Zeros(k - 1);
      ParseZeros(k - 1);
    }
  }

  /** Leading zeros do not change the value read. */
  lemma {:induction false} ParseIgnoresLeadingZeros(k: nat, s: string)
    ensures ParseDecimal(Zeros(k) + s) == ParseDecimal(s)
    decreases |s|
  {
    if s == [] {
      assert Zeros(k) + s == Zeros(k);
      ParseZeros(k);
    } else {
      var t := Zeros(k) + s;
      assert t[..|t| - 1] == Zeros(k) + s[..|s| - 1];
      assert t[|t| - 1] == s[|s| - 1];
      ParseIgnoresLeadingZeros(k, s[..|s| - 1]);
    }
  }

  /** Padding never changes the number a digit string denotes. */
  lemma ParseZeroPad(s: string, width: nat)
    ensures ParseDecimal(ZeroPad(s, width)) == ParseDecimal(s)
  {
    if |s| < width {
      ParseIgnoresLeadingZeros(width - |s|, s);
    }
  }

  /** The decimal text of `n` has at most `k` digits exactly when `n < 10^k`. */
  lemma {:induction false} DecimalLength(n: nat, k: nat)
    requires k >= 1
    ensures |NatToDecimal(n)| <= k <==> n < Pow10(k)
    decreases n
  {
    if n >= 10 {
      if k == 1 {
        assert |NatToDecimal(n / 10)| >= 1;
      } else {
        DecimalLength(n / 10, k - 1);
      }
    }
  }
}
