/**
 * The total accessors and validators: each reports a failure as `Err` or `None` instead of
 * panicking. `divide_numbers` is the exception: it is modelled as written, with the case it
 * does not guard as a precondition, beside a corrected version.
 */
module ProvabilityGood {
  import opened RustTypes
  import opened Decimal
  import opened IntDiv
  import opened IntParse
  import opened Format

  /** As written: a zero divisor is an `Err`; every other divisor reaches `a / b`. */
  function DivideNumbers(a: i32, b: i32): (r: Result<i32, string>)
    requires b != 0 ==> DivFits(a, b)
    ensures r.Err? <==> b == 0
    ensures r.Err? ==> r.error == "Division by zero"
    ensures r.Ok? ==> IsTruncatedQuotient(a, b, r.value)
  {
    if b == 0 then Err("Division by zero") else Ok(I32Div(a, b))
  }

  /** The guard lets `i32::MIN / -1` through, and its quotient does not fit in `i32`, so `a / b` panics. */
  lemma DivideNumbersGuardGap()
    ensures var a, b := I32_MIN, -1;
      b != 0 && !DivFits(a, b) && TruncDiv(a, b) == I32_MAX + 1
  {
    TruncatedQuotientUnique(I32_MIN, -1, TruncDiv(I32_MIN, -1), I32_MAX + 1);
  }

  /** Corrected: the division that would overflow is an `Err` too, so no input panics. */
  function CheckedDivideNumbers(a: i32, b: i32): (r: Result<i32, string>)
    ensures r.Ok? <==> DivFits(a, b)
    ensures b == 0 ==> r == Err("Division by zero")
    ensures r.Ok? ==> IsTruncatedQuotient(a, b, r.value)
  {
    if b == 0 then Err("Division by zero")
    else if a == I32_MIN && b == -1 then Err("Division overflow")
    else Ok(I32Div(a, b))
  }

  /** Wherever the code as written returns, the corrected version returns the same. */
  lemma CheckedAgreesWhereDefined(a: i32, b: i32)
    requires b != 0 ==> DivFits(a, b)
    ensures CheckedDivideNumbers(a, b) == DivideNumbers(a, b)
  {
  }

  /** `arr.get(index).copied()`. */
  function GetArrayElement(arr: seq<i32>, index: nat): (r: Option<i32>)
    ensures r.Some? <==> index < |arr|
    ensures r.Some? ==> r.value == arr[index]
  {
    Get(arr, index)
  }

  const PARSE_FAILURE_PREFIX: string := "Failed to parse number: "

  /** `s.parse()` with the error's text behind a fixed prefix. */
  function ParseNumber(s: string): (r: Result<i32, string>)
    ensures r.Ok? <==> WellFormed(s) && InI32(SignedValue(s))
    ensures r.Ok? ==> r.value == SignedValue(s)
    ensures r.Err? ==> PARSE_FAILURE_PREFIX <= r.error
  {
    ParseI32Correct(s);
    ParseI32(s).MapErr(e => PARSE_FAILURE_PREFIX + ErrorText(e))
  }

  /** The sample input of the program parses. */
  lemma ParseNumberSample()
    ensures ParseNumber("42") == Ok(42)
  {
    ParseFortyTwo();
  }

  /** `s.chars().next()`. */
  function GetFirstChar(s: string): (r: Option<char>)
    ensures r.None? <==> s == []
    ensures r.Some? ==> r.value == s[0]
  {
    if s == [] then None else Some(s[0])
  }

  /** `config.unwrap_or_else(|| "default".to_string())`. */
  function ProcessConfig(config: Option<string>): (r: string)
    ensures config.Some? ==> r == config.value
    ensures config.None? ==> r == "default"
  {
    config.UnwrapOr("default")
  }

  /** The message for an index pair outside the data. */
  function OutOfBounds(row: nat, col: nat): (m: string)
    ensures m == "Index out of bounds: row " + Dec(row) + ", col " + Dec(col)
  {
    OutOfBoundsTemplate(Dec(row), Dec(col));
    Interpolate("Index out of bounds: row {}, col {}", [Dec(row), Dec(col)])
  }

  lemma OutOfBoundsTemplate(r: string, c: string)
    ensures Holes("Index out of bounds: row {}, col {}") == 2
    ensures Interpolate("Index out of bounds: row {}, col {}", [r, c])
         == "Index out of bounds: row " + r + ", col " + c
  {
    InterpolateTwo("Index out of bounds: row ", ", col ", "", r, c);
    assert "Index out of bounds: row {}, col {}" == "Index out of bounds: row " + "{}" + ", col " + "{}" + "";
  }

  /** `data.get(row).and_then(|r| r.get(col)).copied().ok_or_else(..)`. */
  function AccessNestedData(data: seq<seq<i32>>, row: nat, col: nat): (r: Result<i32, string>)
    ensures r.Ok? <==> row < |data| && col < |data[row]|
    ensures r.Ok? ==> r.value == data[row][col]
    ensures r.Err? ==> r.error == "Index out of bounds: row " + Dec(row) + ", col " + Dec(col)
  {
    Get(data, row).AndThen(rowData => Get(rowData, col)).OkOr(OutOfBounds(row, col))
  }
}
