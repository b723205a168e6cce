/** Rust's fixed-width integers and its Option/Result types, as the example programs use them. */
module RustTypes {

  const I32_MIN: int := -0x8000_0000
  const I32_MAX: int := 0x7FFF_FFFF
  const U32_MAX: int := 0xFFFF_FFFF

  /** Rust `i32`: the values a 32-bit two's-complement integer can hold. */
  type i32 = x: int | I32_MIN <= x <= I32_MAX

  /** Rust `u32`, as a number (used where the program renders it in decimal). */
  type u32 = x: int | 0 <= x <= U32_MAX

  predicate InI32(x: int) { I32_MIN <= x <= I32_MAX }

  /** Rust `Option<T>` with the combinators the programs call. */
  datatype Option<T> = None | Some(value: T) {

    /** `Option::and_then`: the first absent value short-circuits. */
    function AndThen<U>(f: T -> Option<U>): Option<U>
    {
      match this
      case None => None
      case Some(v) => f(v)
    }

    /** `Option::unwrap_or_else` with a constant fallback. */
    function UnwrapOr(default: T): T
    {
      match this
      case None => default
      case Some(v) => v
    }

    /** `Option::ok_or_else`: an absent value becomes the given error. */
    function OkOr<E>(error: E): Result<T, E>
    {
      match this
      case None => Err(error)
      case Some(v) => Ok(v)
    }
  }

  /** Rust `Result<T, E>`. */
  datatype Result<T, E> = Ok(value: T) | Err(error: E) {

    /** `Result::map_err`: the success value is kept, an error is rewritten. */
    function MapErr<F>(f: E -> F): Result<T, F>
    {
      match this
      case Ok(v) => Ok(v)
      case Err(e) => Err(f(e))
    }
  }

  /** `<[T]>::get` followed by `.copied()`: the element at `index`, if there is one. */
  function Get<T>(s: seq<T>, index: nat): Option<T>
  {
    if index < |s| then Some(s[index]) else None
  }
}
