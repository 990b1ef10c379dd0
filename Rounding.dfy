/**
 * The two numeric column operations the reorder computation relies on:
 * pandas `Series.round()` (numpy's round half to even) and
 * `Series.clip(lower=0)`.
 */
module Rounding {

  /** True when `n` is a nearest integer to `x` and, on a tie, the even one. */
  ghost predicate IsRoundHalfEven(x: real, n: int)
  {
    && x - 0.5 <= n as real <= x + 0.5
    && ((n as real - x == 0.5 || x - n as real == 0.5) ==> n % 2 == 0)
  }

  /** numpy round half to even, on exact reals. */
  function RoundHalfEven(x: real): (r: int)
    ensures IsRoundHalfEven(x, r)
  {
    var f := x.Floor;
    var frac := x - f as real;
    if frac < 0.5 then f
    else if frac > 0.5 then f + 1
    else if f % 2 == 0 then f
    else f + 1
  }

  /** Only one integer rounds `x` half to even, so the contract above pins the function down. */
  lemma RoundHalfEvenUnique(x: real, n: int)
    requires IsRoundHalfEven(x, n)
    ensures n == RoundHalfEven(x)
  {
  }

  /** An integer-valued real rounds to itself. */
  lemma RoundOfInt(n: int)
    ensures RoundHalfEven(n as real) == n
  {
    RoundHalfEvenUnique(n as real, n);
  }

  /** Rounding is monotone: it never reverses the order of two values. */
  lemma RoundMonotone(x: real, y: real)
    requires x <= y
    ensures RoundHalfEven(x) <= RoundHalfEven(y)
  {
  }

  /** Rounding a value at least `n` gives at least `n`, for every integer `n`. */
  lemma RoundAtLeast(x: real, n: int)
    requires n as real <= x
    ensures n <= RoundHalfEven(x)
  {
    RoundMonotone(n as real, x);
    RoundOfInt(n);
  }

  /** `Series.clip(lower=0)`: negative values become zero. */
  function ClipLower0(x: real): (r: real)
    ensures r >= 0.0
    ensures r >= x
    ensures x >= 0.0 ==> r == x
    ensures x < 0.0 ==> r == 0.0
  {
    if x < 0.0 then 0.0 else x
  }

  /**
   * Clipping before rounding (what the code does) gives the same integer as
   * rounding first and clamping at zero (how the quantity is usually described).
   */
  lemma ClipThenRoundIsRoundThenClamp(x: real)
    ensures RoundHalfEven(ClipLower0(x)) == if RoundHalfEven(x) < 0 then 0 else RoundHalfEven(x)
  {
    RoundOfInt(0);
    if x < 0.0 {
      RoundMonotone(x, 0.0);
    }
  }
}
