/** Numbers as the C library prints and scans them. */
module Decimal {
  import opened Samples

  function DigitChar(d: nat): (c: char)
    requires d < 10
    ensures IsDigit(c) && DigitValue(c) == d
  {
    ('0' as int + d) as char
  }

  predicate IsDigit(c: char) {
    '0' <= c <= '9'
  }

  function DigitValue(c: char): (d: nat)
    requires IsDigit(c)
    ensures d < 10
  {
    c as int - '0' as int
  }

  /** `%u` and `%llu` */
  function Dec(n: nat): (s: string)
    ensures s != [] && forall c <- s :: IsDigit(c)
  {
    if n < 10 then [DigitChar(n)] else Dec(n / 10) + [DigitChar(n % 10)]
  }

  function Pow10(k: nat): (p: nat)
    ensures p > 0
  {
    if k == 0 then 1 else 10 * Pow10(k - 1)
  }

  lemma {:induction false} DecLength(n: nat, k: nat)
    requires k > 0 && n < Pow10(k)
    ensures |Dec(n)| <= k
  {
    if n >= 10 {
      assert k > 1 by {
        assert Pow10(1) == 10 * Pow10(0);
      }
      DecLength(n / 10, k - 1);
    }
  }

  /** A 32-bit number has at most 10 digits, a 64-bit number at most 20. */
  lemma DecWidths(n: nat)
    ensures n < TWO_32 ==> |Dec(n)| <= 10
    ensures n < TWO_64 ==> |Dec(n)| <= 20
  {
    assert Pow10(5) == 100000 by {
      assert Pow10(1) == 10 && Pow10(2) == 100 && Pow10(3) == 1000 && Pow10(4) == 10000;
    }
    assert Pow10(10) == 10000000000 by {
      assert Pow10(6) == 1000000 && Pow10(7) == 10000000 && Pow10(8) == 100000000 && Pow10(9) == 1000000000;
    }
    assert Pow10(15) == 1000000000000000 by {
      assert Pow10(11) == 100000000000 && Pow10(12) == 1000000000000
             && Pow10(13) == 10000000000000 && Pow10(14) == 100000000000000;
    }
    assert Pow10(20) == 100000000000000000000 by {
      assert Pow10(16) == 10000000000000000 && Pow10(17) == 100000000000000000
             && Pow10(18) == 1000000000000000000 && Pow10(19) == 10000000000000000000;
    }
    if n < TWO_32 {
      DecLength(n, 10);
    }
    if n < TWO_64 {
      DecLength(n, 20);
    }
  }

  // ----- scanning -----

  /** The length of the longest run of digits at the front. */
  function DigitRun(s: string): (k: nat)
    ensures k <= |s|
  {
    if s == [] || !IsDigit(s[0]) then 0 else 1 + DigitRun(s[1..])
  }

  function Value(s: string): nat
    requires forall c <- s :: IsDigit(c)
  {
    if s == [] then 0 else 10 * Value(s[..|s| - 1]) + DigitValue(s[|s| - 1])
  }

  lemma {:induction false} ValueOfDec(n: nat)
    ensures Value(Dec(n)) == n
  {
    if n >= 10 {
      var front, last := Dec(n / 10), DigitChar(n % 10);
      ValueOfDec(n / 10);
      assert (front + [last])[..|front|] == front;
    } else {
      assert [DigitChar(n)][..0] == [];
    }
  }

  /** A run of digits ends where something else begins. */
  lemma {:induction false} DigitRunStops(s: string, rest: string)
    requires forall c <- s :: IsDigit(c)
    requires rest == [] || !IsDigit(rest[0])
    ensures DigitRun(s + rest) == |s|
  {
    if s == [] {
      assert s + rest == rest;
    } else {
      assert (s + rest)[1..] == s[1..] + rest;
      DigitRunStops(s[1..], rest);
    }
  }

  lemma {:induction false} DigitRunDigits(s: string)
    ensures forall c <- s[..DigitRun(s)] :: IsDigit(c)
  {
    if s != [] && IsDigit(s[0]) {
      DigitRunDigits(s[1..]);
      assert s[..DigitRun(s)] == [s[0]] + s[1..][..DigitRun(s[1..])];
    }
  }
}
