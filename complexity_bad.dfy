/**
 * The original input dispatcher: one nested decision tree with an early return on every path.
 */
module ComplexityBad {
  import opened RustTypes
  import opened Text
  import ComplexityGood

  /** Every result `process_user_input` can return. */
  const OUTCOMES: set<Result<string, string>> := {
    Ok("Admin mode"), Ok("User mode"), Ok("Guest mode"), Ok("Mode 2 active"),
    Err("Empty input"), Err("Input too short"), Err("Flag not set"),
    Err("Mode 2 requires flag"), Err("Unknown mode")
  }

  function ProcessUserInput(input: string, mode: i32, flags: bv32): (r: Result<string, string>)
    ensures r in OUTCOMES
    ensures input == [] ==> r == Err("Empty input")
    ensures input != [] && mode == 2 ==> (r.Ok? <==> flags & 0x02 != 0)
    ensures input != [] && mode != 1 && mode != 2 ==> r == Err("Unknown mode")
  {
    if ByteLen(input) == 0 then
      Err("Empty input")
    else if mode == 1 then
      if flags & 0x01 != 0 then
        if ByteLen(input) > 100 then
          if Contains(input, "admin") then
            Ok("Admin mode")
          else if Contains(input, "user") then
            Ok("User mode")
          else
            Ok("Guest mode")
        else
          Err("Input too short")
      else
        Err("Flag not set")
    else if mode == 2 then
      if flags & 0x02 != 0 then Ok("Mode 2 active") else Err("Mode 2 requires flag")
    else
      Err("Unknown mode")
  }

  /** In mode 1 the flag is checked before the length, and the length before the text. */
  lemma ModeOneCheckOrder(input: string, flags: bv32)
    requires input != []
    ensures flags & 0x01 == 0 ==> ProcessUserInput(input, 1, flags) == Err("Flag not set")
    ensures flags & 0x01 != 0 && ByteLen(input) <= 100 ==> ProcessUserInput(input, 1, flags) == Err("Input too short")
    ensures ProcessUserInput(input, 1, flags).Ok? <==> flags & 0x01 != 0 && ByteLen(input) > 100
  {
  }

  /** The decision tree and the refactored dispatcher return the same result on every input. */
  lemma SameAsRefactored(input: string, mode: i32, flags: bv32)
    ensures ProcessUserInput(input, mode, flags) == ComplexityGood.ProcessUserInput(input, mode, flags)
  {
    if input != [] && mode == 1 {
      assert ComplexityGood.ProcessUserInput(input, mode, flags) == ComplexityGood.ProcessModeOne(input, flags);
    }
  }
}
