/**
 * Rust's `/` on `i32`: the quotient rounded toward zero. It panics when the divisor is zero
 * and when the quotient does not fit, which happens only for `i32::MIN / -1`.
 */
module IntDiv {
  import opened RustTypes

  function Abs(x: int): nat { if x < 0 then -x else x }

  /**
   * `q` is the quotient of `a` by `b` rounded toward zero: the remainder `a - q * b` is smaller
   * than the divisor and is zero or has the sign of the dividend.
   */
  predicate IsTruncatedQuotient(a: int, b: int, q: int)
    requires b != 0
  {
    var r := a - q * b;
    Abs(r) < Abs(b) && (r == 0 || (r < 0) == (a < 0))
  }

  /** The quotient rounded toward zero, on unbounded integers. */
  function TruncDiv(a: int, b: int): (q: int)
    requires b != 0
    ensures IsTruncatedQuotient(a, b, q)
    ensures Abs(q) <= Abs(a)
  {
    var m: int := Abs(a) / Abs(b);
    TruncDivMagnitude(a, b, m);
    if (a < 0) == (b < 0) then m else -m
  }

  /** Dividing the magnitudes leaves a remainder below the divisor and a quotient below the dividend. */
  lemma EuclideanMagnitude(x: nat, y: nat)
    requires y > 0
    ensures 0 <= x - (x / y) * y < y
    ensures 0 <= x / y <= x
  {
    var m, r := x / y, x % y;
    assert x == y * m + r && 0 <= r < y;
    assert m * y == y * m;
    if m > x {
      MulAtLeast(m, y);
      assert false;
    }
  }

  lemma MulAtLeast(m: nat, y: nat)
    requires y >= 1
    ensures m * y >= m
  {
    assert m * y == m * (y - 1) + m;
  }

  lemma MulSigns(m: int, y: int)
    ensures m * (-y) == -(m * y) && (-m) * y == -(m * y) && (-m) * (-y) == m * y
  {
  }

  lemma TruncDivMagnitude(a: int, b: int, m: int)
    requires b != 0 && m == Abs(a) / Abs(b)
    ensures IsTruncatedQuotient(a, b, if (a < 0) == (b < 0) then m else -m)
    ensures 0 <= m <= Abs(a)
  {
    var x: int, y: int := Abs(a), Abs(b);
    EuclideanMagnitude(x, y);
    MulSigns(m, y);
    var q := if (a < 0) == (b < 0) then m else -m;
    if a >= 0 && b > 0 {
      assert a - q * b == x - m * y;
    } else if a < 0 && b < 0 {
      assert q * b == m * (-y);
      assert a - q * b == -(x - m * y);
    } else if a >= 0 {
      assert q * b == (-m) * (-y);
      assert a - q * b == x - m * y;
    } else {
      assert q * b == (-m) * y;
      assert a - q * b == -(x - m * y);
    }
  }

  /** There is only one quotient rounded toward zero. */
  lemma TruncatedQuotientUnique(a: int, b: int, q1: int, q2: int)
    requires b != 0
    requires IsTruncatedQuotient(a, b, q1) && IsTruncatedQuotient(a, b, q2)
    ensures q1 == q2
  {
    var r1, r2 := a - q1 * b, a - q2 * b;
    assert r2 - r1 == q1 * b - q2 * b == (q1 - q2) * b;
    if q1 != q2 {
      MultipleAtLeastDivisor(q1 - q2, b);
      assert false;
    }
  }

  lemma MultipleAtLeastDivisor(k: int, b: int)
    requires k != 0 && b != 0
    ensures Abs(k * b) >= Abs(b)
  {
    var x: int, y: int := Abs(k), Abs(b);
    MulAtLeast(y, x);
    assert y * x == x * y;
    MulSigns(x, y);
    assert k * b == x * y || k * b == -(x * y);
  }

  /** Whether `a / b` returns rather than panicking. */
  predicate DivFits(a: i32, b: i32)
  {
    b != 0 && !(a == I32_MIN && b == -1)
  }

  /** Rust's `a / b` on `i32`, where it does not panic. */
  function I32Div(a: i32, b: i32): (q: i32)
    requires DivFits(a, b)
    ensures IsTruncatedQuotient(a, b, q)
  {
    QuotientFits(a, b);
    TruncDiv(a, b)
  }

  /** For a non-zero divisor the quotient fits in `i32` unless the division is `i32::MIN / -1`. */
  lemma QuotientFits(a: i32, b: i32)
    requires b != 0
    ensures InI32(TruncDiv(a, b)) <==> DivFits(a, b)
  {
    var q := TruncDiv(a, b);
    if b == -1 {
      TruncatedQuotientUnique(a, b, q, -(a as int));
    } else if b == 1 {
      TruncatedQuotientUnique(a, b, q, a);
    } else {
      HalvedAtMost(a, b);
    }
  }

  lemma HalvedAtMost(a: int, b: int)
    requires Abs(b) >= 2
    ensures 2 * Abs(TruncDiv(a, b)) <= Abs(a)
  {
    var x: int, y: int := Abs(a), Abs(b);
    var m: int := x / y;
    EuclideanMagnitude(x, y);
    MulMonotone(m, 2, y);
    assert Abs(TruncDiv(a, b)) == m;
  }

  lemma MulMonotone(m: nat, j: nat, k: nat)
    requires j <= k
    ensures m * j <= m * k
  {
    assert m * k == m * j + m * (k - j);
  }
}
