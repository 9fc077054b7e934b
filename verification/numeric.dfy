/**
 Numeric helpers shared by the effect modules: Python's `int()` on a float,
 the `max(0.0, min(1.0, v))` clamp, and the set of values `random.uniform`
 can return. Floats are modelled as exact reals.
 */
module Numeric {

  /** Python's `int(x)` for a float: truncation toward zero. */
  function Trunc(x: real): (r: int)
    ensures 0.0 <= x ==> r as real <= x < r as real + 1.0
    ensures x < 0.0 ==> r as real - 1.0 < x <= r as real
    ensures 0.0 <= x ==> 0 <= r
    ensures x < 0.0 ==> r <= 0
  {
    if 0.0 <= x then x.Floor else -((-x).Floor)
  }

  /** Truncation toward zero never reverses the order of its arguments. */
  lemma TruncMonotone(x: real, y: real)
    requires x <= y
    ensures Trunc(x) <= Trunc(y)
  {
    if 0.0 <= x {
      assert x.Floor <= y.Floor;
    } else if y < 0.0 {
      assert (-y).Floor <= (-x).Floor;
    }
  }

  /** `a / t` keeps the order of the numerators for a positive `t`. */
  lemma DivideMonotone(a: real, b: real, t: real)
    requires a <= b && 0.0 < t
    ensures a / t <= b / t
  {
    assert b / t - a / t == (b - a) / t;
  }

  /** Taking reciprocals reverses the order of positive reals. */
  lemma ReciprocalAntitone(x: real, y: real)
    requires 0.0 < x <= y
    ensures 0.0 < 1.0 / y <= 1.0 / x
  {
    assert 1.0 / x - 1.0 / y == (y - x) / (x * y);
    assert 0.0 < x * y;
  }

  /** `max(0.0, min(1.0, v))` */
  function Clamp01(v: real): (r: real)
    ensures 0.0 <= r <= 1.0
    ensures 0.0 <= v <= 1.0 ==> r == v
    ensures v < 0.0 ==> r == 0.0
    ensures 1.0 < v ==> r == 1.0
  {
    if v < 0.0 then 0.0 else if 1.0 < v then 1.0 else v
  }

  /** The clamp keeps the order of its arguments. */
  lemma Clamp01Monotone(u: real, v: real)
    requires u <= v
    ensures Clamp01(u) <= Clamp01(v)
  {
  }

  function Abs(v: real): (r: real)
    ensures 0.0 <= r
    ensures r == v || r == -v
  {
    if v < 0.0 then -v else v
  }

  /** `v` is a value `random.uniform(a, b)` can return: `a + (b - a) * u` with
      `u` in [0, 1], which lies between `a` and `b` whichever is larger. */
  predicate Uniform(v: real, a: real, b: real)
  {
    if a <= b then a <= v <= b else b <= v <= a
  }
}
