/**
 * Arithmetic on the renderer's `Coordinate` floats, modelled on exact reals:
 * the rounding helpers of `f32` and of the renderer's `FloatExt`, and the
 * unsigned integer widths the rasteriser casts to.
 */
module Numeric {

  /** Rust `u8`: the numpad digit of an alignment. */
  type u8 = x: int | 0 <= x < 0x100

  /** Rust `u16`: image widths, heights, row indices and span bounds. */
  type u16 = x: int | 0 <= x < 0x1_0000

  /** Rust `u32`: pixel words and millisecond timestamps. */
  type u32 = x: int | 0 <= x < 0x1_0000_0000

  /** `std::u32::MAX`. */
  const U32_MAX: u32 := 0xFFFF_FFFF

  function Min(a: real, b: real): (r: real)
    ensures r <= a && r <= b && (r == a || r == b)
  {
    if a <= b then a else b
  }

  function Max(a: real, b: real): (r: real)
    ensures r >= a && r >= b && (r == a || r == b)
  {
    if a >= b then a else b
  }

  /** `f32::floor`: the greatest integer not above `x`. */
  function Floor(x: real): (r: int)
    ensures r as real <= x < r as real + 1.0
  {
    x.Floor
  }

  /** `f32::ceil`: the least integer not below `x`. */
  function Ceil(x: real): (r: int)
    ensures x <= r as real < x + 1.0
  {
    -((-x).Floor)
  }

  /**
   * `f32::trunc`: rounds toward zero, so the result has the sign of `x` (or
   * is 0) and lies less than 1 away from it, on the side of 0.
   */
  function Trunc(x: real): (r: int)
    ensures x >= 0.0 ==> 0 <= r && r as real <= x < r as real + 1.0
    ensures x < 0.0 ==> r <= 0 && r as real - 1.0 < x <= r as real
  {
    if x >= 0.0 then Floor(x) else Ceil(x)
  }

  /** The ceiling is at most one above the floor. */
  lemma CeilAtMostFloorPlusOne(x: real)
    ensures Ceil(x) <= Floor(x) + 1
  {
  }

  /** Truncation is the floor of a non-negative input and the ceiling of a negative one. */
  lemma TruncIsFloorOrCeil(x: real)
    ensures x >= 0.0 ==> Trunc(x) == Floor(x)
    ensures x < 0.0 ==> Trunc(x) == Ceil(x)
  {
  }

  /** `f32::fract`: `x - trunc(x)`, which has the sign of `x`. */
  function Fract(x: real): (r: real)
    ensures -1.0 < r < 1.0
    ensures x >= 0.0 ==> 0.0 <= r
    ensures x < 0.0 ==> r <= 0.0
  {
    x - Trunc(x) as real
  }

  /**
   * The rasteriser's round-half-down: floor when the fractional part is at most
   * one half, ceiling otherwise. Because `fract` is negative for negative
   * inputs, every negative input is floored.
   */
  function RoundHalfDown(x: real): (r: int)
    ensures x >= 0.0 ==> r as real - 0.5 < x <= r as real + 0.5
    ensures x < 0.0 ==> r == Floor(x)
  {
    TruncIsFloorOrCeil(x);
    CeilAtMostFloorPlusOne(x);
    if Fract(x) <= 0.5 then Floor(x) else Ceil(x)
  }

  /** `f32::round`: nearest integer, halves rounded away from zero. */
  function Round(x: real): (r: int)
    ensures x >= 0.0 ==> r as real - 0.5 <= x < r as real + 0.5
    ensures x < 0.0 ==> r as real - 0.5 < x <= r as real + 0.5
  {
    if x >= 0.0 then Floor(x + 0.5) else -Floor(-x + 0.5)
  }

  /** `FloatExt::clamp`: the nearest value of `[lo, hi]`. */
  function Clamp(x: real, lo: real, hi: real): (r: real)
    requires lo <= hi
    ensures lo <= r <= hi
    ensures lo <= x <= hi ==> r == x
    ensures x < lo ==> r == lo
    ensures x > hi ==> r == hi
  {
    if x < lo then lo else if x > hi then hi else x
  }

  /** Round-half-down is the integer `ceil(x - 1/2)` on non-negative inputs. */
  lemma RoundHalfDownIsCeilBelowHalf(x: real)
    requires x >= 0.0
    ensures RoundHalfDown(x) == Ceil(x - 0.5)
  {
  }

  lemma RoundHalfDownMonotonic(x: real, y: real)
    requires x <= y
    ensures RoundHalfDown(x) <= RoundHalfDown(y)
  {
  }

  lemma RoundMonotonic(x: real, y: real)
    requires x <= y
    ensures Round(x) <= Round(y)
  {
  }

  /**
   * Round-half-down never exceeds rounding and is at most one below it; on
   * non-negative inputs the two differ exactly on halves.
   */
  lemma RoundHalfDownBelowRound(x: real)
    ensures RoundHalfDown(x) <= Round(x) <= RoundHalfDown(x) + 1
    ensures x >= 0.0 ==> (Round(x) == RoundHalfDown(x) + 1 <==> x - Floor(x) as real == 0.5)
  {
  }

  /** On integers both roundings are the identity. */
  lemma RoundingsFixIntegers(n: int)
    ensures RoundHalfDown(n as real) == n && Round(n as real) == n
  {
  }
}
