/** Rounding of exact decimals to a whole number of units.

    `Decimal.quantize` rounds half to even (section 4.3.1 of IEEE 754-2019).  Money is
    counted in micro-USDC throughout the project, so quantizing to six places of a USDC
    amount is rounding a real number of micro-USDC to an integer.
  */
module Quantize {

  /** The nearest integer to `x`; of two equally near ones, the even one. */
  function RoundHalfEven(x: real): (n: int)
    ensures -0.5 <= x - n as real <= 0.5
    ensures x - n as real == 0.5 || x - n as real == -0.5 ==> n % 2 == 0
  {
    var below := x.Floor;
    var fraction := x - below as real;
    if fraction < 0.5 || (fraction == 0.5 && below % 2 == 0) then below else below + 1
  }

  /** Nearest, and even when tied: the two clauses leave room for one integer only. */
  lemma RoundingIsUnique(x: real, n: int)
    requires -0.5 <= x - n as real <= 0.5
    requires x - n as real == 0.5 || x - n as real == -0.5 ==> n % 2 == 0
    ensures n == RoundHalfEven(x)
  {
    var m := RoundHalfEven(x);
    assert -1.0 <= m as real - n as real <= 1.0;
    assert m == n + 1 ==> x - n as real == 0.5 && x - m as real == -0.5;
    assert n == m + 1 ==> x - m as real == 0.5 && x - n as real == -0.5;
  }

  lemma RoundingIsMonotone(x: real, y: real)
    requires x <= y
    ensures RoundHalfEven(x) <= RoundHalfEven(y)
  {
    var m, n := RoundHalfEven(x), RoundHalfEven(y);
    assert m as real - n as real <= 1.0;
    assert m == n + 1 ==> x == y;
  }

  lemma RoundingFixesGrid(n: int)
    ensures RoundHalfEven(n as real) == n
  {
    RoundingIsUnique(n as real, n);
  }

  /** Moving by an even number of units moves the rounding by the same number. */
  lemma RoundingShiftsByEven(x: real, k: int)
    ensures RoundHalfEven(x + (2 * k) as real) == RoundHalfEven(x) + 2 * k
  {
    RoundingIsUnique(x + (2 * k) as real, RoundHalfEven(x) + 2 * k);
  }

  /** A bound that is itself on the grid survives rounding. */
  lemma RoundingKeepsGridBounds(x: real, lo: int, hi: int)
    ensures lo as real <= x ==> lo <= RoundHalfEven(x)
    ensures x <= hi as real ==> RoundHalfEven(x) <= hi
  {
    RoundingFixesGrid(lo);
    RoundingFixesGrid(hi);
    if lo as real <= x {
      RoundingIsMonotone(lo as real, x);
    }
    if x <= hi as real {
      RoundingIsMonotone(x, hi as real);
    }
  }

  lemma ProductIsMonotone(a: real, b: real, factor: real)
    requires a <= b && 0.0 <= factor
    ensures a * factor <= b * factor
  {
  }

  /** A product the solver need not multiply out. */
  function Times(x: real, y: real): real {
    x * y
  }

  lemma TimesIsMonotone(x: real, y: real, f: real, g: real)
    requires 0.0 <= x <= y && 0.0 <= f <= g
    ensures Times(x, f) <= Times(y, g)
  {
    ProductIsMonotone(x, y, f);
    ProductIsMonotone(f, g, y);
  }

  /** A product, quantized. */
  function RoundedProduct(a: real, factor: real): int {
    RoundHalfEven(a * factor)
  }

  lemma RoundedProductIsMonotone(a: real, b: real, factor: real)
    requires a <= b && 0.0 <= factor
    ensures RoundedProduct(a, factor) <= RoundedProduct(b, factor)
  {
    ProductIsMonotone(a, b, factor);
    RoundingIsMonotone(a * factor, b * factor);
  }

  /** `int(...)` of a Python number: drop the fraction, towards zero. */
  function Truncate(x: real): (n: int)
    ensures 0.0 <= x ==> 0 <= n && n as real <= x < n as real + 1.0
    ensures x <= 0.0 ==> n <= 0 && n as real - 1.0 < x <= n as real
  {
    if 0.0 <= x then x.Floor else -((-x).Floor)
  }
}
