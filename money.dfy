/** Exact decimal arithmetic for the pricing pipeline.

    Prices are exact reals (never binary floats). Each of the three rounding
    rules the services use is defined from `Floor`:
    - `RoundUnits`: Python's `round(x, 0)`, nearest whole real;
    - `RoundCents`: Python's `round(x, 2)`, nearest cent;
    - `TruncCents`: `int(x * 100) / 100`, drop everything past the cent,
      toward zero.
    Ties in the two rounding rules go to the even neighbour, which is what
    Python's `round` does on a value that is exactly halfway.
 */
module Money {

  /** x is a whole number of cents. */
  predicate IsWholeCents(x: real) {
    (x * 100.0).Floor as real == x * 100.0
  }

  /** x is a whole number of reais. */
  predicate IsWhole(x: real) {
    x.Floor as real == x
  }

  /** The integer nearest to x; on an exact tie, the even one. */
  function RoundHalfEven(x: real): (n: int)
    ensures -0.5 <= x - n as real <= 0.5
    ensures (x - n as real == 0.5 || n as real - x == 0.5) ==> n % 2 == 0
  {
    var f := x.Floor;
    var d := x - f as real;
    if d < 0.5 then f
    else if d > 0.5 then f + 1
    else if f % 2 == 0 then f
    else f + 1
  }

  /** The two properties in RoundHalfEven's contract pin its result down:
      no other integer has them. */
  lemma RoundHalfEvenUnique(x: real, n: int)
    requires -0.5 <= x - n as real <= 0.5
    requires (x - n as real == 0.5 || n as real - x == 0.5) ==> n % 2 == 0
    ensures n == RoundHalfEven(x)
  {
  }

  /** The distance between two amounts. */
  function Distance(a: real, b: real): real {
    if a >= b then a - b else b - a
  }

  /** No integer is closer to x than RoundHalfEven(x). */
  lemma RoundHalfEvenIsNearest(x: real, k: int)
    ensures Distance(x, RoundHalfEven(x) as real) <= Distance(x, k as real)
  {
    var n := RoundHalfEven(x);
    if k < n {
      assert k as real <= n as real - 1.0;
    } else if n < k {
      assert n as real + 1.0 <= k as real;
    }
  }

  /** n / 100 is a whole number of cents. */
  lemma CentsAreWholeCents(n: int)
    ensures IsWholeCents(n as real / 100.0)
  {
    assert n as real / 100.0 * 100.0 == n as real;
  }

  /** A whole number of reais is a whole number of cents. */
  lemma WholeIsWholeCents(x: real)
    requires IsWhole(x)
    ensures IsWholeCents(x)
  {
    var k := x.Floor;
    assert x == (100 * k) as real / 100.0;
    CentsAreWholeCents(100 * k);
  }

  /** An integer rounds to itself. */
  lemma RoundHalfEvenOfInt(k: int)
    ensures RoundHalfEven(k as real) == k
  {
  }

  /** Rounding never reverses the order of two values. */
  lemma RoundHalfEvenMonotone(x: real, y: real)
    requires x <= y
    ensures RoundHalfEven(x) <= RoundHalfEven(y)
  {
  }

  /** Python's round(x, 0): the nearest whole value. */
  function RoundUnits(x: real): (r: real)
    ensures IsWhole(r)
    ensures -0.5 <= x - r <= 0.5
  {
    RoundHalfEven(x) as real
  }

  /** Python's round(x, 2): the nearest whole number of cents. */
  function RoundCents(x: real): (r: real)
    ensures IsWholeCents(r)
    ensures -0.005 <= x - r <= 0.005
  {
    var n := RoundHalfEven(x * 100.0);
    CentsAreWholeCents(n);
    n as real / 100.0
  }

  /** Python's int(y): drop the fractional part, toward zero. */
  function TruncateTowardZero(y: real): (n: int)
    ensures 0.0 <= y ==> 0 <= n && n as real <= y < n as real + 1.0
    ensures y <= 0.0 ==> n <= 0 && n as real - 1.0 < y <= n as real
  {
    if y >= 0.0 then y.Floor else -((-y).Floor)
  }

  /** int(x * 100) / 100: x cut down to whole cents, toward zero. */
  function TruncCents(x: real): (r: real)
    ensures IsWholeCents(r)
    ensures 0.0 <= x ==> 0.0 <= r <= x < r + 0.01
    ensures x <= 0.0 ==> r - 0.01 < x <= r <= 0.0
  {
    var n := TruncateTowardZero(x * 100.0);
    CentsAreWholeCents(n);
    n as real / 100.0
  }

  /** A whole value is left alone by RoundUnits. */
  lemma RoundUnitsKeepsWhole(x: real)
    requires IsWhole(x)
    ensures RoundUnits(x) == x
  {
    RoundHalfEvenOfInt(x.Floor);
  }

  /** A whole number of cents is left alone by RoundCents. */
  lemma RoundCentsKeepsWholeCents(x: real)
    requires IsWholeCents(x)
    ensures RoundCents(x) == x
  {
    RoundHalfEvenOfInt((x * 100.0).Floor);
  }

  /** A whole number of cents is left alone by TruncCents. */
  lemma TruncCentsKeepsWholeCents(x: real)
    requires IsWholeCents(x)
    ensures TruncCents(x) == x
  {
    var k := (x * 100.0).Floor;
    assert x * 100.0 == k as real;
    assert TruncateTowardZero(x * 100.0) == k;
  }

  /** Rounding to cents never reverses the order of two values. */
  lemma RoundCentsMonotone(x: real, y: real)
    requires x <= y
    ensures RoundCents(x) <= RoundCents(y)
  {
    RoundHalfEvenMonotone(x * 100.0, y * 100.0);
  }

  /** Each of the three rules is idempotent. */
  lemma RoundingIdempotent(x: real)
    ensures RoundUnits(RoundUnits(x)) == RoundUnits(x)
    ensures RoundCents(RoundCents(x)) == RoundCents(x)
    ensures TruncCents(TruncCents(x)) == TruncCents(x)
  {
    RoundUnitsKeepsWhole(RoundUnits(x));
    RoundCentsKeepsWholeCents(RoundCents(x));
    TruncCentsKeepsWholeCents(TruncCents(x));
  }

  /** For a non-negative amount truncation is rounding down: it never gives
      more than rounding to the nearest cent, and at most one cent less. */
  lemma TruncCentsBelowRoundCents(x: real)
    requires 0.0 <= x
    ensures TruncCents(x) <= RoundCents(x) <= TruncCents(x) + 0.01
  {
    var y := x * 100.0;
    var n := RoundHalfEven(y);
    assert TruncateTowardZero(y) == y.Floor;
    assert y.Floor <= n <= y.Floor + 1;
  }

  /** Truncation and rounding differ: 99.999 truncates to 99.99 but rounds
      to 100.00. */
  lemma TruncationIsNotRounding()
    ensures TruncCents(99.999) == 99.99
    ensures RoundCents(99.999) == 100.0
  {
    assert (99.999 * 100.0).Floor == 9999;
    assert RoundHalfEven(99.999 * 100.0) == 10000;
  }
}
