/**
 * Decimal rendering of non-negative integers: what `Display` (and so `to_string` and a `{}`
 * placeholder of `format!`) writes for a `u32` or a `usize`, and for the magnitude of an `i32`.
 */
module Decimal {

  predicate IsDigit(c: char) { '0' <= c <= '9' }

  predicate AllDigits(s: string) { forall i :: 0 <= i < |s| ==> IsDigit(s[i]) }

  function DigitValue(c: char): (d: nat)
    requires IsDigit(c)
    ensures d < 10
  {
    c as int - '0' as int
  }

  function DigitChar(d: nat): (c: char)
    requires d < 10
    ensures IsDigit(c) && DigitValue(c) == d
  {
    ('0' as int + d) as char
  }

  /** The digits of `n`, most significant first, with no leading zero. */
  function Dec(n: nat): (r: string)
    ensures |r| >= 1
    ensures AllDigits(r)
    ensures r[0] == '0' ==> n == 0
    decreases n
  {
    if n < 10 then [DigitChar(n)] else Dec(n / 10) + [DigitChar(n % 10)]
  }

  /** The number a string of decimal digits denotes (the reading of `Dec`). */
  function Value(s: string): nat
    requires AllDigits(s)
    decreases |s|
  {
    if s == [] then 0 else Value(s[..|s| - 1]) * 10 + DigitValue(s[|s| - 1])
  }

  function Pow10(k: nat): (p: nat)
    ensures p >= 1
  {
    if k == 0 then 1 else 10 * Pow10(k - 1)
  }

  /** Reading back what `Dec` writes gives the number. */
  lemma {:induction false} ValueOfDec(n: nat)
    ensures Value(Dec(n)) == n
    decreases n
  {
    if n >= 10 {
      var d := Dec(n / 10);
      ValueOfDec(n / 10);
      assert Dec(n)[..|Dec(n)| - 1] == d;
    }
  }

  /** Distinct numbers are written differently. */
  lemma DecInjective(m: nat, n: nat)
    requires Dec(m) == Dec(n)
    ensures m == n
  {
    ValueOfDec(m);
    ValueOfDec(n);
  }

  /** `Value` read from the most significant digit: the first digit weighs 10^(|s|-1). */
  lemma {:induction false} ValueFront(s: string)
    requires |s| >= 1 && AllDigits(s)
    ensures Value(s) == DigitValue(s[0]) * Pow10(|s| - 1) + Value(s[1..])
    decreases |s|
  {
    if |s| > 1 {
      var init := s[..|s| - 1];
      ValueFront(init);
      assert init[1..] == s[1..][..|s[1..]| - 1];
      assert init[0] == s[0];
      var d0, p := DigitValue(s[0]), Pow10(|s| - 2);
      calc {
        Value(s);
        Value(init) * 10 + DigitValue(s[|s| - 1]);
        (d0 * p + Value(init[1..])) * 10 + DigitValue(s[|s| - 1]);
        { assert (d0 * p + Value(init[1..])) * 10 == d0 * (p * 10) + Value(init[1..]) * 10; }
        d0 * (p * 10) + (Value(s[1..][..|s[1..]| - 1]) * 10 + DigitValue(s[1..][|s[1..]| - 1]));
        d0 * Pow10(|s| - 1) + Value(s[1..]);
      }
    }
  }
}
