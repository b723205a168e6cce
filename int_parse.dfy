/**
 * `str::parse::<i32>`: an optional `+` or `-`, then one or more ASCII digits, accumulated
 * left to right with checked arithmetic; the first character that is not a digit, or the
 * first step that leaves the `i32` range, decides the error.
 */
module IntParse {
  import opened RustTypes
  import opened Decimal

  /** The kinds of `ParseIntError` that parsing an `i32` from text can report. */
  datatype IntErrorKind = Empty | InvalidDigit | PosOverflow | NegOverflow

  /** The `Display` text of each kind. */
  function ErrorText(kind: IntErrorKind): string
  {
    match kind
    case Empty => "cannot parse integer from empty string"
    case InvalidDigit => "invalid digit found in string"
    case PosOverflow => "number too large to fit in target type"
    case NegOverflow => "number too small to fit in target type"
  }

  function ParseI32(s: string): Result<i32, IntErrorKind>
  {
    if s == [] then Err(Empty)
    else if (s[0] == '+' || s[0] == '-') && |s| == 1 then Err(InvalidDigit)
    else if s[0] == '+' then Accumulate(s[1..], 0, false)
    else if s[0] == '-' then Accumulate(s[1..], 0, true)
    else Accumulate(s, 0, false)
  }

  /**
   * One step per character: reject a non-digit, then multiply by ten, then add the digit
   * (subtract it, for a negative number), each step checked against the `i32` range.
   */
  function Accumulate(digits: string, acc: i32, negative: bool): Result<i32, IntErrorKind>
    decreases |digits|
  {
    var overflow := if negative then NegOverflow else PosOverflow;
    if digits == [] then Ok(acc)
    else if !IsDigit(digits[0]) then Err(InvalidDigit)
    else if !InI32(acc * 10) then Err(overflow)
    else
      var next := if negative then acc * 10 - DigitValue(digits[0]) else acc * 10 + DigitValue(digits[0]);
      if !InI32(next) then Err(overflow) else Accumulate(digits[1..], next, negative)
  }

  // ----- The reference reading of an integer literal -----

  /** The text after an optional leading sign. */
  function Unsigned(s: string): string
  {
    if s != [] && (s[0] == '+' || s[0] == '-') then s[1..] else s
  }

  /** An optional sign followed by at least one decimal digit. */
  predicate WellFormed(s: string)
  {
    |Unsigned(s)| >= 1 && AllDigits(Unsigned(s))
  }

  /** The (unbounded) integer a well-formed literal denotes. */
  function SignedValue(s: string): int
    requires WellFormed(s)
  {
    var m: int := Value(Unsigned(s));
    if s[0] == '-' then -m else m
  }

  function Sign(negative: bool): int { if negative then -1 else 1 }

  /** Whatever `Accumulate` returns is the value of its digits appended to `acc`. */
  lemma {:induction false} AccumulateSound(digits: string, acc: i32, negative: bool)
    requires Accumulate(digits, acc, negative).Ok?
    ensures AllDigits(digits)
    ensures Accumulate(digits, acc, negative).value
         == acc * Pow10(|digits|) + Sign(negative) * Value(digits)
    decreases |digits|
  {
    if digits != [] {
      var d := DigitValue(digits[0]);
      var next := acc * 10 + Sign(negative) * d;
      var rest := digits[1..];
      assert Accumulate(digits, acc, negative) == Accumulate(rest, next, negative);
      AccumulateSound(rest, next, negative);
      ValueFront(digits);
      StepAlgebra(acc, Sign(negative), d, Pow10(|rest|), Value(rest));
      forall i | 0 <= i < |digits| ensures IsDigit(digits[i]) {
        if i > 0 { assert digits[i] == rest[i - 1]; }
      }
    }
  }

  /** Appending one digit `d` to `acc`, then `k` more digits worth `v` (with 10^k == p). */
  lemma StepAlgebra(acc: int, sign: int, d: int, p: int, v: int)
    ensures (acc * 10 + sign * d) * p + sign * v == acc * (10 * p) + sign * (d * p + v)
  {
    calc {
      (acc * 10 + sign * d) * p + sign * v;
      acc * 10 * p + sign * d * p + sign * v;
      acc * (10 * p) + sign * (d * p + v);
    }
  }

  lemma MulAtLeastOne(x: int, p: int)
    requires p >= 1
    ensures x >= 0 ==> x * p >= x
    ensures x <= 0 ==> x * p <= x
  {
  }

  /** Digits whose value, appended to `acc`, fits in `i32` are accumulated without error. */
  lemma {:induction false} AccumulateComplete(digits: string, acc: i32, negative: bool)
    requires AllDigits(digits)
    requires if negative then acc <= 0 else acc >= 0
    requires InI32(acc * Pow10(|digits|) + Sign(negative) * Value(digits))
    ensures Accumulate(digits, acc, negative)
         == Ok(acc * Pow10(|digits|) + Sign(negative) * Value(digits))
    decreases |digits|
  {
    if digits != [] {
      var d := DigitValue(digits[0]);
      var rest := digits[1..];
      var p := Pow10(|rest|);
      var next := acc * 10 + Sign(negative) * d;
      ValueFront(digits);
      StepAlgebra(acc, Sign(negative), d, p, Value(rest));
      var final := next * p + Sign(negative) * Value(rest);
      assert final == acc * Pow10(|digits|) + Sign(negative) * Value(digits);
      MulAtLeastOne(next, p);
      MulAtLeastOne(acc, 10);
      assert InI32(acc * 10) && InI32(next);
      assert forall i :: 0 <= i < |rest| ==> rest[i] == digits[i + 1];
      AccumulateComplete(rest, next, negative);
    }
  }

  /** `parse::<i32>` succeeds exactly on well-formed literals whose value fits, and returns that value. */
  lemma ParseI32Correct(s: string)
    ensures ParseI32(s).Ok? <==> WellFormed(s) && InI32(SignedValue(s))
    ensures ParseI32(s).Ok? ==> ParseI32(s).value == SignedValue(s)
    ensures ParseI32(s) == Err(Empty) <==> s == []
  {
    if s != [] {
      var u := Unsigned(s);
      var negative := s[0] == '-';
      if |s| == 1 && (s[0] == '+' || s[0] == '-') {
        assert u == [];
      } else {
        assert ParseI32(s) == Accumulate(u, 0, negative);
        if Accumulate(u, 0, negative).Ok? {
          AccumulateSound(u, 0, negative);
        }
        if WellFormed(s) && InI32(SignedValue(s)) {
          AccumulateComplete(u, 0, negative);
        }
        NeverEmpty(u, 0, negative);
      }
    }
  }

  lemma {:induction false} NeverEmpty(digits: string, acc: i32, negative: bool)
    ensures Accumulate(digits, acc, negative) != Err(Empty)
    decreases |digits|
  {
    if digits != [] && IsDigit(digits[0]) {
      var next := if negative then acc * 10 - DigitValue(digits[0]) else acc * 10 + DigitValue(digits[0]);
      if InI32(acc * 10) && InI32(next) {
        NeverEmpty(digits[1..], next, negative);
      }
    }
  }


  /** `Display` of an `i32`: a minus sign for negative values, then the decimal magnitude. */
  function I32ToString(v: i32): string
  {
    if v < 0 then "-" + Dec(-(v as int)) else Dec(v)
  }

  /** Parsing what `Display` writes for an `i32` gives the value back. */
  lemma ParseDisplayRoundTrip(v: i32)
    ensures ParseI32(I32ToString(v)) == Ok(v)
  {
    var s := I32ToString(v);
    if v < 0 {
      assert Unsigned(s) == Dec(-(v as int));
      ValueOfDec(-(v as int));
    } else {
      assert Unsigned(s) == Dec(v);
      ValueOfDec(v);
    }
    ParseI32Correct(s);
  }

  /** The sample input of the program: `"42"` parses to 42. */
  lemma ParseFortyTwo()
    ensures ParseI32("42") == Ok(42)
  {
    assert Dec(42) == "42";
    ParseDisplayRoundTrip(42);
  }
}
