/**
 * Python's `round(x, 1)` and `round(x, 2)` on the exact reals that stand in
 * for floats.
 */
module Rounding {

  /** `round(x, 1)`, taken as exact rounding half up. */
  function Round1(x: real): real {
    ((x * 10.0 + 0.5).Floor as real) / 10.0
  }

  /** `round(x, 2)`, taken as exact rounding half up. */
  function Round2(x: real): real {
    ((x * 100.0 + 0.5).Floor as real) / 100.0
  }

  /** Rounding to one place keeps order and the range [0, 100]. */
  lemma Round1Monotone(x: real, y: real)
    requires x <= y
    ensures Round1(x) <= Round1(y)
  {
    assert (x * 10.0 + 0.5).Floor <= (y * 10.0 + 0.5).Floor;
  }

  lemma Round1Range(x: real)
    requires 0.0 <= x <= 100.0
    ensures 0.0 <= Round1(x) <= 100.0
  {
    Round1Monotone(0.0, x);
    Round1Monotone(x, 100.0);
    assert Round1(0.0) == 0.0;
    assert Round1(100.0) == 100.0;
  }

  /** Rounding to two places keeps order; whole numbers are unchanged. */
  lemma Round2Monotone(x: real, y: real)
    requires x <= y
    ensures Round2(x) <= Round2(y)
  {
    assert (x * 100.0 + 0.5).Floor <= (y * 100.0 + 0.5).Floor;
  }

  lemma Round2Whole(n: int)
    ensures Round2(n as real) == n as real
  {
    assert (n as real * 100.0 + 0.5).Floor == n * 100;
  }
}
