/**
 * The arithmetic the acquisition handlers apply to sensor readings: the
 * mean of two redundant readings and Python's `round(x, 2)`.
 *
 * Readings are exact reals. `round(x, 2)` is modelled as Python defines it
 * on the number it is given: the nearest multiple of 0.01, a tie going to
 * the even multiple. How a binary float represents that number is not
 * modelled.
 */
module Numeric {

  function Abs(x: real): real {
    if x < 0.0 then -x else x
  }

  /** `r` is a whole number of hundredths: a value `round(_, 2)` can return. */
  predicate IsCents(r: real) {
    (r * 100.0).Floor as real == r * 100.0
  }

  /**
   * The integer nearest to `y`; of two equally near integers, the even one.
   * The two postconditions together determine `k`.
   */
  function RoundHalfEven(y: real): (k: int)
    ensures -0.5 <= k as real - y <= 0.5
    ensures Abs(k as real - y) == 0.5 ==> k % 2 == 0
  {
    var f := y.Floor;
    var frac := y - f as real;
    if frac < 0.5 then f
    else if frac > 0.5 then f + 1
    else if f % 2 == 0 then f
    else f + 1
  }

  /** Python's `round(x, 2)`: a whole number of hundredths within half a hundredth of `x`. */
  function Round2(x: real): (r: real)
    ensures IsCents(r)
    ensures -0.005 <= r - x <= 0.005
  {
    var k := RoundHalfEven(x * 100.0);
    var r := k as real / 100.0;
    assert r * 100.0 == k as real;
    assert (k as real).Floor == k;
    r
  }

  /** The arithmetic mean `(a + b) / 2` that reconciles two redundant readings. */
  function Mean(a: real, b: real): (r: real)
    ensures r - a == b - r
    ensures a <= b ==> a <= r <= b
    ensures b <= a ==> b <= r <= a
  {
    (a + b) / 2.0
  }

  /** No integer is nearer to `y` than `RoundHalfEven(y)`. */
  lemma RoundHalfEvenNearest(y: real, m: int)
    ensures Abs(RoundHalfEven(y) as real - y) <= Abs(m as real - y)
  {
    var k := RoundHalfEven(y);
    if m < k {
      assert m as real <= k as real - 1.0;
    } else if m > k {
      assert m as real >= k as real + 1.0;
    }
  }

  /** Rounding to the nearest integer never reverses the order of two numbers. */
  lemma RoundHalfEvenMonotone(x: real, y: real)
    requires x <= y
    ensures RoundHalfEven(x) <= RoundHalfEven(y)
  {
  }

  /** `Round2` returns the hundredth nearest to `x`: no whole number of hundredths is nearer. */
  lemma Round2Nearest(x: real, c: real)
    requires IsCents(c)
    ensures Abs(Round2(x) - x) <= Abs(c - x)
  {
    var m := (c * 100.0).Floor;
    RoundHalfEvenNearest(x * 100.0, m);
    var k := RoundHalfEven(x * 100.0);
    assert Round2(x) == k as real / 100.0;
    assert c == m as real / 100.0;
    assert Round2(x) - x == (k as real - x * 100.0) / 100.0;
    assert c - x == (m as real - x * 100.0) / 100.0;
  }

  /** A value that already has two decimals is left as it is. */
  lemma Round2Fixes(x: real)
    requires IsCents(x)
    ensures Round2(x) == x
  {
  }

  /** Rounding twice is rounding once. */
  lemma Round2Idempotent(x: real)
    ensures Round2(Round2(x)) == Round2(x)
  {
  }

  /** `Round2` never reverses the order of two readings. */
  lemma Round2Monotone(x: real, y: real)
    requires x <= y
    ensures Round2(x) <= Round2(y)
  {
    RoundHalfEvenMonotone(x * 100.0, y * 100.0);
  }

  /**
   * A reconciled value lies between the two readings rounded on their own:
   * averaging two sensors cannot produce a value outside their range.
   */
  lemma ReconciledBetween(a: real, b: real)
    requires a <= b
    ensures Round2(a) <= Round2(Mean(a, b)) <= Round2(b)
  {
    Round2Monotone(a, Mean(a, b));
    Round2Monotone(Mean(a, b), b);
  }

  /** Two worked reconciliations: 20.0 and 22.0 give 21.00; 21.333 and 22.667 give 22.00. */
  lemma ReconciledExamples()
    ensures Round2(Mean(20.0, 22.0)) == 21.0
    ensures Round2(Mean(21.333, 22.667)) == 22.0
  {
  }
}
