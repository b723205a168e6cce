# deterministic-llm-coding: the complexity, provability and entropy examples in Dafny

The repository pairs small "bad" and "good" Rust programs. Each pair shows one code-quality
issue. This project models three of the pairs. For each pair it proves what the functions
return, and that the two versions agree:

- **Complexity** (`examples/01-complexity`). `process_user_input` validates an input string
  and then dispatches on `mode` and `flags`.
  - The bad version is one nested decision tree (`ComplexityBad`).
  - The good version splits it into `validate_input`, `process_mode_one`,
    `determine_user_type` and `process_mode_two` (`ComplexityGood`).
  - `SameAsRefactored` proves the two versions return the same result on every input.
- **Provability** (`examples/05-provability`).
  - The good file returns `Result`/`Option` from division, slice access, nested access,
    parsing, first-character and config lookups (`ProvabilityGood`).
  - The bad file indexes, divides and unwraps directly (`ProvabilityBad`). Each bad function
    requires exactly what keeps it from panicking. Under that precondition, its contract says
    it returns what the good function wraps in `Ok`/`Some` (for `process_config`, exactly what
    the good version returns).
- **Entropy** (`examples/03-entropy`).
  - The good file formats with one `format!` per shape (`EntropyGood`).
  - The bad file grows a `String` in place with `push_str` (`EntropyBad`). This is modelled
    as a class `RustString` whose `PushStr` method appends to its `contents` field.
  - Every bad method is proved to return the string of its good counterpart.

Shared modules model the parts of Rust's standard library that these functions rely on:

| module | models |
|---|---|
| `RustTypes` | `i32` and `u32` as bounded integers, and `Option`/`Result` with `and_then`, `unwrap_or_else`, `ok_or_else`, `map_err`, and slice `get` |
| `Decimal` | decimal rendering of integers (`Display`, `to_string`, `{}`) and its reading |
| `Text` | `str::len` as a UTF-8 byte count, and `str::contains` |
| `Format` | `format!` with plain `{}` placeholders |
| `IntDiv` | `i32` division rounded toward zero, and the cases where it panics |
| `IntParse` | `str::parse::<i32>` |

A `&str` is modelled by its sequence of Unicode scalar values (`string`). `len()` is computed
from each scalar value's UTF-8 width, so the 100-byte threshold of mode 1 counts bytes, as in
Rust. `flags: u32` is a `bv32`, so `&` is bitwise.

The good provability file's header promises "No panic potential"
(examples/05-provability/good/src/main.rs:1). Its `divide_numbers` does not hold to that (see
Findings). The model follows the code.

The complexity pair returns one of 4 `Ok` strings ("Admin mode", "User mode", "Guest mode",
"Mode 2 active") or one of 5 `Err` strings. `ComplexityBad.OUTCOMES` lists all nine.

## Model

| member | source | states |
|---|---|---|
| `Decimal.Dec` | examples/03-entropy/bad/src/main.rs:8 | at least one character, all decimal digits, and no leading zero unless the number is 0 |
| `Decimal.ValueOfDec` | examples/03-entropy/good/src/main.rs:4 | reading back the decimal text of `n` gives `n` |
| `Decimal.DecInjective` | examples/03-entropy/good/src/main.rs:4 | different numbers are rendered as different texts |
| `Decimal.ValueFront` | examples/05-provability/good/src/main.rs:16 | a digit string's value is its first digit times 10^(len-1) plus the rest's value (the left-to-right reading parsing uses) |
| `Text.Utf8Width` | examples/01-complexity/good/src/main.rs:25 | one to four bytes per scalar value; one byte exactly for ASCII |
| `Text.ByteLen` | examples/01-complexity/good/src/main.rs:25 | `len()` lies between the number of characters and four times that, and is 0 exactly for the empty string |
| `Text.AsciiByteLen` | examples/01-complexity/good/src/main.rs:25 | on ASCII text `len()` is the number of characters |
| `Text.ByteLenAppend` | examples/01-complexity/good/src/main.rs:25 | `len()` of a concatenation is the sum of the parts' `len()` |
| `Text.ContainsIffOccurs` | examples/01-complexity/good/src/main.rs:33-35 | the left-to-right search of `contains` succeeds exactly when the pattern occurs at some index |
| `Format.Interpolate` | examples/03-entropy/good/src/main.rs:4 | output length = template length − 2·placeholders + total length of the arguments |
| `Format.InterpolateAppend` | examples/03-entropy/good/src/main.rs:4 | formatting two templates joined at a seam that no placeholder straddles is formatting each and joining the results |
| `Format.LiteralCopied` | examples/03-entropy/good/src/main.rs:4 | a brace-free literal has no placeholder and is copied unchanged |
| `Format.AppendHole` | examples/03-entropy/good/src/main.rs:4 | appending `{}` to a template appends the next argument to the output |
| `Format.AppendLiteral` | examples/03-entropy/good/src/main.rs:4 | appending a brace-free literal appends it unchanged |
| `Format.InterpolateTwo` | examples/05-provability/good/src/main.rs:41 | `l0{}l1{}l2` with two arguments gives `l0 a0 l1 a1 l2` |
| `Format.InterpolateThree` | examples/03-entropy/good/src/main.rs:20 | `l0{}l1{}l2{}l3` with three arguments gives `l0 a0 l1 a1 l2 a2 l3` |
| `Format.InterpolateFour` | examples/03-entropy/good/src/main.rs:4 | `l0{}l1{}l2{}l3{}l4` with four arguments gives `l0 a0 l1 a1 l2 a2 l3 a3 l4` |
| `IntDiv.TruncDiv` | examples/05-provability/good/src/main.rs:7 | the quotient is rounded toward zero: the remainder is smaller than the divisor and is zero or has the dividend's sign; and \|q\| ≤ \|a\| |
| `IntDiv.TruncatedQuotientUnique` | examples/05-provability/good/src/main.rs:7 | only one quotient is rounded toward zero |
| `IntDiv.QuotientFits` | examples/05-provability/good/src/main.rs:7 | for a non-zero divisor, the quotient fits in `i32` exactly when the division is not `i32::MIN / -1` |
| `IntDiv.HalvedAtMost` | examples/05-provability/good/src/main.rs:7 | with a divisor of magnitude at least 2, the quotient is at most half the dividend |
| `IntDiv.I32Div` | examples/05-provability/bad/src/main.rs:4 | where `a / b` does not panic it returns the quotient rounded toward zero |
| `IntParse.AccumulateSound` | examples/05-provability/good/src/main.rs:16 | when the checked digit loop succeeds, its input was all digits and it returns their value appended to the accumulator |
| `IntParse.AccumulateComplete` | examples/05-provability/good/src/main.rs:16 | digits whose value fits in `i32` are accumulated without error |
| `IntParse.NeverEmpty` | examples/05-provability/good/src/main.rs:16 | the digit loop never reports an empty string |
| `IntParse.ParseI32Correct` | examples/05-provability/good/src/main.rs:16 | `parse::<i32>` succeeds exactly on an optional sign plus at least one digit whose value fits in `i32`, and returns that value; it reports `Empty` exactly for `""` |
| `IntParse.ParseDisplayRoundTrip` | examples/05-provability/good/src/main.rs:16 | parsing the `Display` text of any `i32` gives the value back |
| `IntParse.ParseFortyTwo` | examples/05-provability/good/src/main.rs:56 | `"42"` parses to 42 |
| `ComplexityGood.ValidateInput` | examples/01-complexity/good/src/main.rs:12-18 | `Ok` exactly for a non-empty input; otherwise `Err("Empty input")` |
| `ComplexityGood.ProcessModeOne` | examples/01-complexity/good/src/main.rs:20-30 | a clear bit 0x01 gives "Flag not set" whatever the length; with the bit set, ≤ 100 bytes gives "Input too short"; `Ok` exactly when the bit is set and the input is longer than 100 bytes, and then its value is `determine_user_type(input)` |
| `ComplexityGood.DetermineUserType` | examples/01-complexity/good/src/main.rs:32-40 | "Admin mode" iff the text contains "admin"; "User mode" iff it contains "user" but not "admin"; "Guest mode" iff it contains neither |
| `ComplexityGood.ProcessModeTwo` | examples/01-complexity/good/src/main.rs:42-48 | `Ok("Mode 2 active")` iff bit 0x02 is set, else `Err("Mode 2 requires flag")` |
| `ComplexityGood.ProcessUserInput` | examples/01-complexity/good/src/main.rs:2-10 | empty input gives "Empty input" whatever the mode; a non-empty input with a mode other than 1 or 2 gives "Unknown mode"; success needs a non-empty input and mode 1 or 2 |
| `ComplexityGood.ModeOneFlagFirst` | examples/01-complexity/good/src/main.rs:20-23 | without bit 0x01, mode 1 reports "Flag not set", even for a short input |
| `ComplexityGood.ModeOneNeedsLongInput` | examples/01-complexity/good/src/main.rs:25-27 | with bit 0x01, mode 1 succeeds iff the input is longer than 100 bytes, and otherwise reports "Input too short" |
| `ComplexityGood.ModeOneUserType` | examples/01-complexity/good/src/main.rs:29-40 | a successful mode-1 call reports "Admin mode" if "admin" occurs (even with "user"), else "User mode" if "user" occurs, else "Guest mode" |
| `ComplexityGood.ModeTwoOnlyFlag` | examples/01-complexity/good/src/main.rs:42-48 | for non-empty input, mode 2 depends on bit 0x02 alone |
| `ComplexityGood.OnlyModeBitsMatter` | examples/01-complexity/good/src/main.rs:21 | two flag words that agree on bits 0x01 and 0x02 give the same result |
| `ComplexityGood.MaskedBit` | examples/01-complexity/good/src/main.rs:43 | words that agree under mask 0x03 agree on every bit inside it |
| `ComplexityBad.ProcessUserInput` | examples/01-complexity/bad/src/main.rs:2-34 | the result is one of the nine listed outcomes; empty input gives "Empty input"; mode 2 succeeds iff bit 0x02 is set; any other mode gives "Unknown mode" |
| `ComplexityBad.ModeOneCheckOrder` | examples/01-complexity/bad/src/main.rs:6-23 | in mode 1 the flag is checked before the length, and the length before the substrings |
| `ComplexityBad.SameAsRefactored` | examples/01-complexity/bad/src/main.rs:2-34 | the decision tree returns what the refactored dispatcher returns, on every input |
| `ProvabilityGood.DivideNumbers` | examples/05-provability/good/src/main.rs:3-9 | as written: `Err("Division by zero")` iff `b == 0`, otherwise `Ok` of the quotient rounded toward zero; requires that a non-zero divisor does not overflow |
| `ProvabilityGood.DivideNumbersGuardGap` | examples/05-provability/good/src/main.rs:1-7 | `i32::MIN / -1` passes the `b == 0` guard, but its quotient is `i32::MAX + 1`, which does not fit |
| `ProvabilityGood.CheckedDivideNumbers` | examples/05-provability/good/src/main.rs:3-9 | corrected: `Ok` exactly when the division cannot panic, `Err("Division by zero")` for `b == 0`, and the quotient rounded toward zero on success |
| `ProvabilityGood.CheckedAgreesWhereDefined` | examples/05-provability/good/src/main.rs:3-9 | wherever the code as written returns, the corrected version returns the same |
| `ProvabilityGood.GetArrayElement` | examples/05-provability/good/src/main.rs:11-13 | `Some(arr[index])` iff `index < \|arr\|`, else `None` |
| `ProvabilityGood.ParseNumber` | examples/05-provability/good/src/main.rs:15-18 | `Ok` exactly for a well-formed literal that fits in `i32`, with its value; every error message begins "Failed to parse number: " |
| `ProvabilityGood.ParseNumberSample` | examples/05-provability/good/src/main.rs:56 | `parse_number("42")` is `Ok(42)` |
| `ProvabilityGood.GetFirstChar` | examples/05-provability/good/src/main.rs:29-31 | `None` iff the string is empty, otherwise its first character |
| `ProvabilityGood.ProcessConfig` | examples/05-provability/good/src/main.rs:33-35 | the contained string for `Some`, "default" for `None` |
| `ProvabilityGood.OutOfBounds` | examples/05-provability/good/src/main.rs:41 | the message is "Index out of bounds: row R, col C" with both indices in decimal |
| `ProvabilityGood.OutOfBoundsTemplate` | examples/05-provability/good/src/main.rs:41 | the template has two placeholders and formats to the label text around the two arguments |
| `ProvabilityGood.AccessNestedData` | examples/05-provability/good/src/main.rs:37-42 | `Ok(data[row][col])` iff `row < \|data\|` and `col < \|data[row]\|`; otherwise the out-of-bounds message for the requested indices |
| `ProvabilityBad.DivideNumbers` | examples/05-provability/bad/src/main.rs:3-5 | defined only where `a / b` cannot panic (`b != 0`, and not `i32::MIN / -1`); returns what both good divisions wrap in `Ok` |
| `ProvabilityBad.GetArrayElement` | examples/05-provability/bad/src/main.rs:7-9 | defined only for `index < \|arr\|`; the good version returns `Some` of the same value |
| `ProvabilityBad.ParseNumber` | examples/05-provability/bad/src/main.rs:11-13 | defined only on strings that parse as `i32`; returns their value, which the good version wraps in `Ok` |
| `ProvabilityBad.GetFirstChar` | examples/05-provability/bad/src/main.rs:20-22 | defined only for a non-empty string; the good version returns `Some` of the same character |
| `ProvabilityBad.ProcessConfig` | examples/05-provability/bad/src/main.rs:24-26 | defined only for `Some`; returns what the good version returns |
| `ProvabilityBad.AccessNestedData` | examples/05-provability/bad/src/main.rs:28-30 | defined only when both indices are in range; the good version returns `Ok` of the same element |
| `EntropyGood.FormatEntity` | examples/03-entropy/good/src/main.rs:3-5 | the text is `t + ": " + n + ", " + a + ": " + decimal(v)` |
| `EntropyGood.EntityTemplate` | examples/03-entropy/good/src/main.rs:4 | the template `"{}: {}, {}: {}"` has four placeholders and formats to that text |
| `EntropyGood.FormatEntityShape` | examples/03-entropy/good/src/main.rs:4 | the length is \|t\| + \|n\| + \|a\| + \|decimal(v)\| + 6; the text starts with the entity type and ends with the value's digits |
| `EntropyGood.ProcessUser` | examples/03-entropy/good/src/main.rs:7-9 | `"User: " + name + ", Age: " + decimal(age)` |
| `EntropyGood.ProcessAdmin` | examples/03-entropy/good/src/main.rs:11-13 | `"Admin: " + name + ", Level: " + decimal(level)` |
| `EntropyGood.ProcessGuest` | examples/03-entropy/good/src/main.rs:15-17 | `"Guest: " + name + ", Duration: " + decimal(duration)` |
| `EntropyGood.LabelsJoin` | examples/03-entropy/good/src/main.rs:7-17 | with fixed labels, `format_entity` is the name and the value between two literal runs |
| `EntropyGood.FormatContactDetails` | examples/03-entropy/good/src/main.rs:19-21 | `"Name: " + name + ", Email: " + email + ", ID: " + decimal(id)` |
| `EntropyGood.ContactTemplate` | examples/03-entropy/good/src/main.rs:20 | the template has three placeholders and formats to that text |
| `EntropyGood.FormatUserDetails` | examples/03-entropy/good/src/main.rs:23-25 | the contact-details text |
| `EntropyGood.FormatAdminDetails` | examples/03-entropy/good/src/main.rs:27-29 | the contact-details text |
| `EntropyGood.FormatGuestDetails` | examples/03-entropy/good/src/main.rs:31-33 | the contact-details text |
| `EntropyGood.DetailsAgree` | examples/03-entropy/good/src/main.rs:23-33 | the three detail formatters return the same text for the same arguments |
| `EntropyGood.ContactDetailsShape` | examples/03-entropy/good/src/main.rs:20 | the text starts with "Name: ", is 21 characters longer than its three parts, and ends with the id's digits |
| `EntropyBad.RustString.constructor` | examples/03-entropy/bad/src/main.rs:4 | `String::new()` is empty |
| `EntropyBad.RustString.PushStr` | examples/03-entropy/bad/src/main.rs:5-8 | `push_str` appends its argument and leaves the earlier content unchanged |
| `EntropyBad.ProcessUser` | examples/03-entropy/bad/src/main.rs:3-10 | the pushes build the good `process_user` text, which starts with "User: " |
| `EntropyBad.ProcessAdmin` | examples/03-entropy/bad/src/main.rs:12-19 | the pushes build the good `process_admin` text, which starts with "Admin: " |
| `EntropyBad.ProcessGuest` | examples/03-entropy/bad/src/main.rs:21-28 | the pushes build the good `process_guest` text, which starts with "Guest: " |
| `EntropyBad.FormatUserDetails` | examples/03-entropy/bad/src/main.rs:30-39 | the pushes build the good `format_contact_details` text, which starts with "Name: " |
| `EntropyBad.FormatAdminDetails` | examples/03-entropy/bad/src/main.rs:41-50 | the pushes build the good `format_contact_details` text, which starts with "Name: " |
| `EntropyBad.FormatGuestDetails` | examples/03-entropy/bad/src/main.rs:52-61 | the pushes build the good `format_contact_details` text, which starts with "Name: " |
| `EntropyBad.DetailsAgree` | examples/03-entropy/bad/src/main.rs:30-61 | the three push-built detail formatters return equal strings |

## Left out

- `examples/02-satd` (both versions): all of its logic is `f64` arithmetic, and Dafny's `real` does not round like `f64`.
- `calculate_average` (both provability files): it divides in `f64` and sums into an `i32` that can overflow. The good version's rejection of an empty slice (examples/05-provability/good/src/main.rs:21-23) is also not modelled.
- Every `main` function: each is sample calls plus `println!`/`eprintln!`, which is I/O. Only the sample `parse_number("42")` is stated (`ProvabilityGood.ParseNumberSample`).
- Panics: a bad function's panic is modelled as an unmet precondition. Unwinding is not modelled.
- `IntParse.ErrorText`: the `Display` texts of `ParseIntError` come from Rust's standard library, not from the repository; the contracts pin down only the "Failed to parse number: " prefix that the program adds.
- `IntParse.ParseI32` models decimal `i32` parsing only: an optional sign, then ASCII digits. Other radixes and integer types are not modelled.
- `Format.Interpolate`: only plain `{}` placeholders are modelled. The `{{`/`}}` escapes, positional and named arguments, and format specs are not modelled, and none of the templates here use them.
- `usize` indices are `nat`, with no upper bound.
- `String` allocation and capacity growth in `push_str` are not modelled. Only the contents are.
- `RustTypes.Option.UnwrapOr` takes the fallback value directly. The closure of `unwrap_or_else`/`ok_or_else` is evaluated eagerly, which has no visible effect here.

## Findings

| source | as written | input that shows it | evidently intended | confidence | as-written member | corrected member |
|---|---|---|---|---|---|---|
| examples/05-provability/good/src/main.rs:1-7 | the header promises no panic, but `divide_numbers` guards only `b == 0` before computing `a / b` | `divide_numbers(i32::MIN, -1)`: the quotient 2147483648 does not fit in `i32`, so `/` panics | `i32::MIN / -1` is also reported as an `Err` (as `checked_div` would) | not executed | `ProvabilityGood.DivideNumbers`, `ProvabilityGood.DivideNumbersGuardGap` | `ProvabilityGood.CheckedDivideNumbers` |
