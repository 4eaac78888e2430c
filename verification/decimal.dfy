/**
  Decimal digit strings: the value of a digit string, the rendering of a
  natural number the way JavaScript's template literals render an integral
  Number, and round-half-up division (JavaScript's `Math.round` of a quotient).
 */
module Decimal {

  predicate IsDigit(c: char) {
    '0' <= c <= '9'
  }

  predicate AllDigits(s: string) {
    forall i :: 0 <= i < |s| ==> IsDigit(s[i])
  }

  function DigitValue(c: char): (d: nat)
    requires IsDigit(c)
    ensures d < 10
  {
    (c as int) - ('0' as int)
  }

  function DigitChar(d: nat): (c: char)
    requires d < 10
    ensures IsDigit(c) && DigitValue(c) == d
  {
    ((('0' as int) + d) as char)
  }

  function Pow10(n: nat): (p: nat)
    ensures p >= 1
  {
    if n == 0 then 1 else 10 * Pow10(n - 1)
  }

  /** The number a string of decimal digits denotes (most significant digit first). */
  function Value(s: string): nat
    requires AllDigits(s)
    decreases |s|
  {
    if |s| == 0 then 0 else 10 * Value(s[..|s| - 1]) + DigitValue(s[|s| - 1])
  }

  /** A digit string of length n denotes less than 10^n. */
  lemma {:induction false} ValueBound(s: string)
    requires AllDigits(s)
    ensures Value(s) < Pow10(|s|)
    decreases |s|
  {
    if |s| > 0 {
      ValueBound(s[..|s| - 1]);
    }
  }

  /** Concatenating digit strings shifts the left part by the length of the right part. */
  lemma {:induction false} ValueAppend(a: string, b: string)
    requires AllDigits(a) && AllDigits(b)
    ensures AllDigits(a + b)
    ensures Value(a + b) == Value(a) * Pow10(|b|) + Value(b)
    decreases |b|
  {
    var ab := a + b;
    if |b| == 0 {
      assert ab == a;
    } else {
      var b' := b[..|b| - 1];
      assert ab[..|ab| - 1] == a + b';
      assert ab[|ab| - 1] == b[|b| - 1];
      ValueAppend(a, b');
      var d := DigitValue(b[|b| - 1]);
      assert Value(ab) == 10 * Value(a + b') + d;
      assert Value(b) == 10 * Value(b') + d;
      assert Pow10(|b|) == 10 * Pow10(|b'|);
      ShiftDigit(Value(a), Pow10(|b'|), Value(b'), d);
    }
  }

  /** The arithmetic step of appending one digit: 10(x·p + y) + d = x·(10p) + (10y + d). */
  lemma ShiftDigit(x: int, p: int, y: int, d: int)
    ensures 10 * (x * p + y) + d == x * (10 * p) + (10 * y + d)
  {
  }

  /**
    The decimal rendering of n: at least one digit, no leading zero, and
    reading the digits back gives n.
   */
  function FromNat(n: nat): (s: string)
    ensures |s| >= 1 && AllDigits(s)
    ensures Value(s) == n
    ensures s[0] == '0' ==> s == "0"
    decreases n
  {
    if n < 10 then [DigitChar(n)]
    else
      var prefix := FromNat(n / 10);
      var s := prefix + [DigitChar(n % 10)];
      assert s[..|s| - 1] == prefix;
      s
  }

  /**
    r is num/den rounded to the nearest integer, halves rounded up
    (toward +infinity), which is what JavaScript's Math.round does.
   */
  predicate IsHalfUpRounding(r: int, num: int, den: int)
    requires den > 0
  {
    (2 * r - 1) * den <= 2 * num < (2 * r + 1) * den
  }

  function RoundHalfUp(num: int, den: int): (r: int)
    requires den > 0
    ensures IsHalfUpRounding(r, num, den)
  {
    var q := (2 * num + den) / (2 * den);
    var rem := (2 * num + den) % (2 * den);
    assert 2 * num + den == (2 * den) * q + rem;
    assert (2 * q - 1) * den == (2 * den) * q - den;
    assert (2 * q + 1) * den == (2 * den) * q + den;
    q
  }

  /** The half-up rounding of a quotient is unique. */
  lemma {:induction false} HalfUpRoundingUnique(r1: int, r2: int, num: int, den: int)
    requires den > 0
    requires IsHalfUpRounding(r1, num, den) && IsHalfUpRounding(r2, num, den)
    ensures r1 == r2
  {
    if r1 > r2 {
      MulMonotone(2 * r2 + 1, 2 * r1 - 1, den);
    } else if r2 > r1 {
      MulMonotone(2 * r1 + 1, 2 * r2 - 1, den);
    }
  }

  lemma MulMonotone(a: int, b: int, c: int)
    requires a <= b && c > 0
    ensures a * c <= b * c
  {
    assert b * c - a * c == (b - a) * c;
  }

  /** Rounding a quotient that lies between lo and hi stays between lo and hi. */
  lemma {:induction false} RoundHalfUpWithin(num: int, den: int, lo: int, hi: int)
    requires den > 0
    requires lo * den <= num <= hi * den
    ensures lo <= RoundHalfUp(num, den) <= hi
  {
    var r := RoundHalfUp(num, den);
    assert (2 * r - 1) * den <= 2 * num < (2 * r + 1) * den;
    if r < lo {
      MulMonotone(2 * r + 1, 2 * lo - 1, den);
      assert false;
    }
    if r > hi {
      MulMonotone(2 * hi + 1, 2 * r - 1, den);
      assert false;
    }
  }
}
