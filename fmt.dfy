/**
 * The printf conversions the interpreter uses to build its messages and
 * listings: `%d` / `%ld` of an integer and `%04ld` of a non-negative offset.
 */
module Fmt {

  predicate IsDigit(c: char) { '0' <= c <= '9' }

  function DigitChar(d: nat): (c: char)
    requires d < 10
    ensures IsDigit(c) && c as int - '0' as int == d
  {
    (d + '0' as int) as char
  }

  function DigitValue(c: char): (d: nat)
    requires IsDigit(c)
    ensures d < 10 && DigitChar(d) == c
  {
    c as int - '0' as int
  }

  predicate AllDigits(s: string)
  {
    forall i | 0 <= i < |s| :: IsDigit(s[i])
  }

  /** The decimal digits of n, most significant first, without leading zeros. */
  function NatToString(n: nat): (s: string)
    ensures |s| >= 1
    ensures s[0] == '0' ==> n == 0
    decreases n
  {
    if n < 10 then [DigitChar(n)] else NatToString(n / 10) + [DigitChar(n % 10)]
  }

  /** `%d`: a leading '-' for negative numbers, then the digits of the magnitude. */
  function IntToString(n: int): string
  {
    if n < 0 then "-" + NatToString(-n) else NatToString(n)
  }

  /** The value of a string of decimal digits. */
  function ParseNat(s: string): nat
    requires AllDigits(s)
  {
    if |s| == 0 then 0 else 10 * ParseNat(s[..|s| - 1]) + DigitValue(s[|s| - 1])
  }

  /** The printed form of a number is all digits, and reading it back gives the number. */
  lemma {:induction false} ParseNatToString(n: nat)
    ensures AllDigits(NatToString(n)) && ParseNat(NatToString(n)) == n
    decreases n
  {
    if n >= 10 {
      var s := NatToString(n);
      assert s[..|s| - 1] == NatToString(n / 10);
      ParseNatToString(n / 10);
    }
  }

  /** Distinct numbers print differently. */
  lemma {:induction false} IntToStringInjective(a: int, b: int)
    requires IntToString(a) == IntToString(b)
    ensures a == b
  {
    var s := IntToString(a);
    if a < 0 {
      assert s[0] == '-' && s[1..] == NatToString(-a);
    } else {
      ParseNatToString(a);
      assert IsDigit(s[0]);
    }
    if b >= 0 {
      ParseNatToString(b);
    }
    if a < 0 && b < 0 {
      assert s[1..] == NatToString(-b);
      NatToStringInjective(-a, -b);
    } else if a >= 0 && b >= 0 {
      NatToStringInjective(a, b);
    }
  }

  lemma {:induction false} NatToStringInjective(a: nat, b: nat)
    requires NatToString(a) == NatToString(b)
    ensures a == b
  {
    ParseNatToString(a);
    ParseNatToString(b);
  }

  function Zeros(k: nat): string
  {
    if k == 0 then "" else Zeros(k - 1) + "0"
  }

  lemma {:induction false} ZerosSpec(k: nat)
    ensures |Zeros(k)| == k && forall i | 0 <= i < k :: Zeros(k)[i] == '0'
  {
    if k > 0 {
      ZerosSpec(k - 1);
    }
  }

  /** `%04ld` of a non-negative value: its digits, left-padded with zeros to at least four characters. */
  function Pad4(n: nat): string
  {
    var d := NatToString(n);
    if |d| < 4 then Zeros(4 - |d|) + d else d
  }

  /** The padded text is at least four characters long, ends in the digits of n and is zeros before them. */
  lemma {:induction false} Pad4Spec(n: nat)
    ensures var s, d := Pad4(n), NatToString(n);
      |s| == (if |d| < 4 then 4 else |d|)
      && s[|s| - |d|..] == d
      && forall i | 0 <= i < |s| - |d| :: s[i] == '0'
  {
    var d := NatToString(n);
    if |d| < 4 {
      ZerosSpec(4 - |d|);
      assert Pad4(n)[4 - |d|..] == d;
    }
  }
}
