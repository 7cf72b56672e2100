/**
 * The fixed-width integers of the program, on Dafny's unbounded `int`.
 * Conversions between widths (`as u8`, `as i32`, `as u32`) and Rust's
 * truncating division are written out here so that every use is explicit.
 */
module MachineInts {

  const U8_LIMIT: int := 0x100
  const U32_LIMIT: int := 0x1_0000_0000
  const I32_LIMIT: int := 0x8000_0000
  const I64_MIN: int := -0x8000_0000_0000_0000
  const I64_MAX: int := 0x7FFF_FFFF_FFFF_FFFF

  type U8 = x: int | 0 <= x < U8_LIMIT
  type U32 = x: int | 0 <= x < U32_LIMIT
  type I32 = x: int | -I32_LIMIT <= x < I32_LIMIT

  /** Rust's `x as u8` on a `u32`: keeps the low eight bits. */
  function TruncateToU8(x: U32): (r: U8)
    ensures x < U8_LIMIT ==> r == x
    ensures exists k: nat :: x == k * U8_LIMIT + r
  {
    var r := x % U8_LIMIT;
    assert x == (x / U8_LIMIT) * U8_LIMIT + r;
    r
  }

  /** Rust's `x as i32` on a `u32`: the same 32 bits read as two's complement. */
  function U32AsI32(x: U32): (r: I32)
    ensures x < I32_LIMIT ==> r == x
    ensures x >= I32_LIMIT ==> r < 0
  {
    if x < I32_LIMIT then x else x - U32_LIMIT
  }

  /** Rust's `x as u32` on an `i32`: the same 32 bits read as unsigned. */
  function I32AsU32(x: I32): (r: U32)
    ensures x >= 0 ==> r == x
  {
    if x >= 0 then x else x + U32_LIMIT
  }

  /** Storing a `u32` in a signed 32-bit column and reading it back loses nothing. */
  lemma U32RoundTrip(x: U32)
    ensures I32AsU32(U32AsI32(x)) == x
  {
  }

  /**
   * Rust's (and chrono's) integer division, which truncates toward zero,
   * unlike Dafny's Euclidean `/`.
   */
  function TruncDiv(a: int, b: int): int
    requires b > 0
  {
    if a >= 0 then a / b else -((-a) / b)
  }

  /** The truncated quotient has the sign of the dividend and rounds toward zero. */
  lemma TruncDivBounds(a: int, b: int)
    requires b > 0
    ensures a >= 0 ==> 0 <= TruncDiv(a, b) && TruncDiv(a, b) * b <= a < TruncDiv(a, b) * b + b
    ensures a < 0 ==> TruncDiv(a, b) <= 0 && TruncDiv(a, b) * b - b < a <= TruncDiv(a, b) * b
  {
    var q := TruncDiv(a, b);
    if a >= 0 {
      assert q == a / b;
      assert q * b + a % b == a;
    } else {
      var p := (-a) / b;
      assert q == -p;
      assert p * b + (-a) % b == -a;
      assert q * b == -(p * b);
    }
  }

  lemma MulAtLeast(a: int, b: int)
    requires a >= 1 && b > 0
    ensures a * b >= b
  {
  }

  /** Dividing a multiple of `b` by `b` is exact. */
  lemma DivExact(n: int, b: int)
    requires b > 0
    ensures (n * b) / b == n
  {
    var q := (n * b) / b;
    assert (n - q) * b == (n * b) % b;
    if n - q >= 1 {
      MulAtLeast(n - q, b);
    } else if q - n >= 1 {
      MulAtLeast(q - n, b);
    }
  }
}
