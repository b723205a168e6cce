/**
 * The partial accessors: each indexes, divides or unwraps directly and panics outside its
 * precondition. Each is defined exactly where it returns, and there it returns the value its
 * total counterpart wraps in `Ok` or `Some`.
 */
module ProvabilityBad {
  import opened RustTypes
  import opened IntDiv
  import opened IntParse
  import Good = ProvabilityGood

  /** `a / b`: panics on a zero divisor and on `i32::MIN / -1`. */
  function DivideNumbers(a: i32, b: i32): (q: i32)
    requires DivFits(a, b)
    ensures Good.DivideNumbers(a, b) == Ok(q)
    ensures Good.CheckedDivideNumbers(a, b) == Ok(q)
  {
    I32Div(a, b)
  }

  /** `arr[index]`. */
  function GetArrayElement(arr: seq<i32>, index: nat): (v: i32)
    requires index < |arr|
    ensures Good.GetArrayElement(arr, index) == Some(v)
  {
    arr[index]
  }

  /** `s.parse().unwrap()`: defined on the literals that fit in `i32`. */
  function ParseNumber(s: string): (v: i32)
    requires WellFormed(s) && InI32(SignedValue(s))
    ensures v == SignedValue(s)
    ensures Good.ParseNumber(s) == Ok(v)
  {
    ParseI32Correct(s);
    ParseI32(s).value
  }

  /** `s.chars().next().unwrap()`. */
  function GetFirstChar(s: string): (c: char)
    requires s != []
    ensures Good.GetFirstChar(s) == Some(c)
  {
    s[0]
  }

  /** `config.unwrap()`. */
  function ProcessConfig(config: Option<string>): (r: string)
    requires config.Some?
    ensures Good.ProcessConfig(config) == r
  {
    config.value
  }

  /** `data[row][col]`. */
  function AccessNestedData(data: seq<seq<i32>>, row: nat, col: nat): (v: i32)
    requires row < |data| && col < |data[row]|
    ensures Good.AccessNestedData(data, row, col) == Ok(v)
  {
    data[row][col]
  }
}
