/** Machine arithmetic of the C sources: fixed widths, truncating division and
    the conversion of a `double` to an integer. `double` itself is modelled as `real`. */
module Arith {
  const TWO16: int := 0x1_0000
  const TWO31: int := 0x8000_0000
  const TWO32: int := 0x1_0000_0000
  const TWO63: int := 0x8000_0000_0000_0000
  const TWO64: int := 0x1_0000_0000_0000_0000
  const SEC_NS: int := 1_000_000_000

  type U16 = x: int | 0 <= x < TWO16
  type U32 = x: int | 0 <= x < TWO32
  type U64 = x: int | 0 <= x < TWO64

  datatype Option<+T> = None | Some(value: T)

  /** x + 1 on a uint16_t */
  function Succ16(x: U16): U16 { (x + 1) % TWO16 }

  /** x - 1 on a uint16_t */
  function Pred16(x: U16): U16 { (x - 1) % TWO16 }

  /** a - b on uint64_t */
  function Sub64(a: int, b: int): U64 { (a - b) % TWO64 }

  /** C's integer division, which truncates toward zero, by a positive divisor. */
  function DivC(a: int, b: int): int
    requires b > 0
  {
    if a >= 0 then a / b else -(-a / b)
  }

  /** C's conversion of a floating point value to an integer: toward zero. */
  function Trunc(x: real): int {
    if x >= 0.0 then x.Floor else -(-x).Floor
  }

  function Abs(x: int): int { if x >= 0 then x else -x }

  function AbsR(x: real): real { if x >= 0.0 then x else -x }

  function Min(a: int, b: int): int { if a <= b then a else b }

  function Max(a: int, b: int): int { if a >= b then a else b }

  function Pow2(n: nat): (p: int)
    ensures p >= 1
  {
    if n == 0 then 1 else 2 * Pow2(n - 1)
  }

  /** Truncation moves toward zero, by less than one, and never past an integer. */
  lemma TruncBounds(x: real)
    ensures AbsR(Trunc(x) as real) <= AbsR(x)
    ensures AbsR(Trunc(x) as real - x) < 1.0
    ensures x >= 0.0 ==> Trunc(x) >= 0
    ensures x <= 0.0 ==> Trunc(x) <= 0
  {
  }

  lemma QuotientBounds(a: int, b: int, q: int, r: int)
    requires a >= 0 && b > 0 && a == b * q + r && 0 <= r < b
    ensures 0 <= q <= a
  {
    if q < 0 {
      ProductMonotonic(b, q, -1);
    } else {
      ProductMonotonic(q, 1, b);
    }
  }

  lemma ProductMonotonic(k: int, x: int, y: int)
    requires k >= 0 && x <= y
    ensures k * x <= k * y
  {
  }

  lemma NonNegativeQuotient(a: int, b: int)
    requires a >= 0 && b > 0
    ensures 0 <= a / b <= a
    ensures 0 <= a - b * (a / b) <= b - 1
  {
    QuotientBounds(a, b, a / b, a % b);
  }

  /** The quotient and the remainder a - b * DivC(a, b) of C's division. */
  lemma DivCBounds(a: int, b: int)
    requires b > 0
    ensures Abs(a - b * DivC(a, b)) <= b - 1
    ensures a >= 0 ==> 0 <= DivC(a, b) <= a && a - b * DivC(a, b) >= 0
    ensures a <= 0 ==> a <= DivC(a, b) <= 0 && a - b * DivC(a, b) <= 0
  {
    if a >= 0 {
      NonNegativeQuotient(a, b);
      if a == 0 {
        NonNegativeQuotient(0, b);
      }
    } else {
      NonNegativeQuotient(-a, b);
      assert b * DivC(a, b) == -(b * (-a / b));
    }
  }
}
