/** Decimal numerals. */
module Decimal {
  import opened Text

  function Digit(d: nat): char
    requires d < 10
  {
    (('0' as int) + d) as char
  }

  function DigitValue(c: char): nat
    requires IsDigit(c)
  {
    (c as int) - ('0' as int)
  }

  /** The numeral of a natural number, without leading zeros. */
  function Dec(n: nat): string {
    if n < 10 then [Digit(n)] else Dec(n / 10) + [Digit(n % 10)]
  }

  predicate AllDigits(s: string) {
    forall k :: 0 <= k < |s| ==> IsDigit(s[k])
  }

  /** The number a string of digits writes. */
  function Value(s: string): nat
    requires AllDigits(s)
  {
    if s == "" then 0 else Value(s[..|s| - 1]) * 10 + DigitValue(s[|s| - 1])
  }

  lemma {:induction false} DecValue(n: nat)
    ensures AllDigits(Dec(n)) && Dec(n) != "" && Value(Dec(n)) == n
    ensures n > 0 ==> Dec(n)[0] != '0'
  {
    if n < 10 {
      assert Dec(n)[..0] == "";
    } else {
      DecValue(n / 10);
      var s := Dec(n);
      assert s[..|s| - 1] == Dec(n / 10);
    }
  }

  lemma DecInjective(m: nat, n: nat)
    requires Dec(m) == Dec(n)
    ensures m == n
  {
    DecValue(m);
    DecValue(n);
  }

  lemma {:induction false} LeadingZeros(k: nat, s: string)
    requires AllDigits(s)
    ensures AllDigits(Zeros(k) + s) && Value(Zeros(k) + s) == Value(s)
    decreases |s|, k
  {
    if s != "" {
      var n := |s| - 1;
      LeadingZeros(k, s[..n]);
      assert (Zeros(k) + s)[..k + n] == Zeros(k) + s[..n];
    } else if k > 0 {
      LeadingZeros(k - 1, "");
      assert (Zeros(k) + s)[..k - 1] == Zeros(k - 1) + "";
    } else {
      assert Zeros(k) + s == "";
    }
  }

  function Zeros(k: nat): (z: string)
    ensures |z| == k && forall i :: 0 <= i < k ==> z[i] == '0'
  {
    seq(k, _ => '0')
  }

  /** A numeral padded with zeros to three digits. */
  function Padded(n: nat): string {
    Zeros(if |Dec(n)| < 3 then 3 - |Dec(n)| else 0) + Dec(n)
  }

  lemma PaddedInjective(m: nat, n: nat)
    requires Padded(m) == Padded(n)
    ensures m == n
  {
    DecValue(m);
    DecValue(n);
    LeadingZeros(if |Dec(m)| < 3 then 3 - |Dec(m)| else 0, Dec(m));
    LeadingZeros(if |Dec(n)| < 3 then 3 - |Dec(n)| else 0, Dec(n));
  }

  lemma PaddedShort(n: nat)
    requires n < 1000
    ensures |Padded(n)| == 3 && AllDigits(Padded(n))
  {
    DecValue(n);
    assert |Dec(n)| <= 3 by {
      if n >= 100 {
        assert |Dec(n / 100)| == 1 && |Dec(n / 10)| == 2;
      } else if n >= 10 {
        assert |Dec(n / 10)| == 1;
      }
    }
  }
}
