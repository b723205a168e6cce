/**
 * The refactored input dispatcher: `process_user_input` validates the input, then hands it to
 * one small function per mode. Each function returns `Ok` with a mode description or `Err`
 * with a reason.
 */
module ComplexityGood {
  import opened RustTypes
  import opened Text

  /** Bit of `flags` that mode 1 needs. */
  const MODE_ONE_FLAG: bv32 := 0x01
  /** Bit of `flags` that mode 2 needs. */
  const MODE_TWO_FLAG: bv32 := 0x02
  /** Mode 1 rejects inputs of at most this many bytes. */
  const SHORT_INPUT_BYTES: nat := 100

  /** Rejects the empty string. */
  function ValidateInput(input: string): (r: Result<(), string>)
    ensures r.Ok? <==> input != []
    ensures r.Err? ==> r.error == "Empty input"
  {
    if ByteLen(input) == 0 then Err("Empty input") else Ok(())
  }

  /** Mode 1: the flag bit is checked first, then the byte length, then the text decides the user type. */
  function ProcessModeOne(input: string, flags: bv32): (r: Result<string, string>)
    ensures flags & MODE_ONE_FLAG == 0 ==> r == Err("Flag not set")
    ensures flags & MODE_ONE_FLAG != 0 && ByteLen(input) <= SHORT_INPUT_BYTES ==> r == Err("Input too short")
    ensures r.Ok? <==> flags & MODE_ONE_FLAG != 0 && ByteLen(input) > SHORT_INPUT_BYTES
    ensures r.Ok? ==> r.value == DetermineUserType(input)
    ensures r.Ok? ==> r.value in {"Admin mode", "User mode", "Guest mode"}
  {
    if flags & MODE_ONE_FLAG == 0 then Err("Flag not set")
    else if ByteLen(input) <= SHORT_INPUT_BYTES then Err("Input too short")
    else Ok(DetermineUserType(input))
  }

  /** "admin" anywhere in the text wins over "user"; text with neither is a guest. */
  function DetermineUserType(input: string): (r: string)
    ensures r == "Admin mode" <==> Contains(input, "admin")
    ensures r == "User mode" <==> !Contains(input, "admin") && Contains(input, "user")
    ensures r == "Guest mode" <==> !Contains(input, "admin") && !Contains(input, "user")
  {
    if Contains(input, "admin") then "Admin mode"
    else if Contains(input, "user") then "User mode"
    else "Guest mode"
  }

  /** Mode 2 succeeds exactly when its flag bit is set. */
  function ProcessModeTwo(flags: bv32): (r: Result<string, string>)
    ensures r.Ok? <==> flags & MODE_TWO_FLAG != 0
    ensures r == Ok("Mode 2 active") || r == Err("Mode 2 requires flag")
  {
    if flags & MODE_TWO_FLAG != 0 then Ok("Mode 2 active") else Err("Mode 2 requires flag")
  }

  /** Validation first (its error is passed on as it is), then dispatch on the mode. */
  function ProcessUserInput(input: string, mode: i32, flags: bv32): (r: Result<string, string>)
    ensures input == [] ==> r == Err("Empty input")
    ensures input != [] && mode != 1 && mode != 2 ==> r == Err("Unknown mode")
    ensures r.Ok? ==> input != [] && (mode == 1 || mode == 2)
  {
    match ValidateInput(input)
    case Err(e) => Err(e)
    case Ok(_) =>
      if mode == 1 then ProcessModeOne(input, flags)
      else if mode == 2 then ProcessModeTwo(flags)
      else Err("Unknown mode")
  }

  // ----- Properties of the dispatcher -----

  /** Mode 1 checks the flag before the length: without the flag, even a short input reports the flag. */
  lemma ModeOneFlagFirst(input: string, flags: bv32)
    requires input != [] && flags & MODE_ONE_FLAG == 0
    ensures ProcessUserInput(input, 1, flags) == Err("Flag not set")
  {
  }

  /** Mode 1 succeeds only on more than 100 bytes; with the flag, anything shorter is too short. */
  lemma ModeOneNeedsLongInput(input: string, flags: bv32)
    requires input != [] && flags & MODE_ONE_FLAG != 0
    ensures ProcessUserInput(input, 1, flags).Ok? <==> ByteLen(input) > SHORT_INPUT_BYTES
    ensures ByteLen(input) <= SHORT_INPUT_BYTES ==> ProcessUserInput(input, 1, flags) == Err("Input too short")
  {
  }

  /** A successful mode-1 call reports the user type the text names, "admin" first. */
  lemma ModeOneUserType(input: string, flags: bv32)
    requires flags & MODE_ONE_FLAG != 0 && ByteLen(input) > SHORT_INPUT_BYTES
    ensures Contains(input, "admin") ==> ProcessUserInput(input, 1, flags) == Ok("Admin mode")
    ensures !Contains(input, "admin") && Contains(input, "user") ==> ProcessUserInput(input, 1, flags) == Ok("User mode")
    ensures !Contains(input, "admin") && !Contains(input, "user") ==> ProcessUserInput(input, 1, flags) == Ok("Guest mode")
  {
  }

  /** For a non-empty input, mode 2 depends on bit 0x02 only. */
  lemma ModeTwoOnlyFlag(input: string, flags: bv32)
    requires input != []
    ensures flags & MODE_TWO_FLAG != 0 ==> ProcessUserInput(input, 2, flags) == Ok("Mode 2 active")
    ensures flags & MODE_TWO_FLAG == 0 ==> ProcessUserInput(input, 2, flags) == Err("Mode 2 requires flag")
  {
  }

  /** Bits of `flags` other than 0x01 and 0x02 never change the result. */
  lemma OnlyModeBitsMatter(input: string, mode: i32, flags: bv32, other: bv32)
    requires flags & 0x03 == other & 0x03
    ensures ProcessUserInput(input, mode, flags) == ProcessUserInput(input, mode, other)
  {
    MaskedBit(flags, other, MODE_ONE_FLAG);
    MaskedBit(flags, other, MODE_TWO_FLAG);
  }

  lemma MaskedBit(x: bv32, y: bv32, bit: bv32)
    requires x & 0x03 == y & 0x03 && bit & 0x03 == bit
    ensures x & bit == y & bit
  {
    assert x & bit == (x & 0x03) & bit;
    assert y & bit == (y & 0x03) & bit;
  }
}
