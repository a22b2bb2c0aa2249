/** Scalar tolerance comparison (src/helpers.rs).
    Scalars are modelled as reals; the machine epsilons keep their exact values. */
module Helpers {

  /** f64::EPSILON, the gap between 1.0 and the next f64: 2^-52. */
  const F64_EPSILON: real := 1.0 / 4503599627370496.0

  /** f32::EPSILON, the gap between 1.0 and the next f32: 2^-23. */
  const F32_EPSILON: real := 1.0 / 8388608.0

  lemma EpsilonsAreSmallPositive()
    ensures 0.0 < F64_EPSILON < F32_EPSILON < 1.0
  {}

  /** Absolute value, as `f64::abs` / `f32::abs` computes it on finite values. */
  function Abs(x: real): (r: real)
    ensures 0.0 <= r
    ensures r == x || r == -x
  {
    if x < 0.0 then -x else x
  }

  /** `f64_equal`: two scalars are equal when they differ by strictly less than f64::EPSILON.
      The result is characterised without `Abs`: `a` lies in the open interval of
      radius F64_EPSILON around `b`. */
  function F64Equal(a: real, b: real): (r: bool)
    ensures r <==> b - F64_EPSILON < a < b + F64_EPSILON
  {
    Abs(a - b) < F64_EPSILON
  }

  /** Every scalar is tolerance-equal to itself, because the margin is positive. */
  lemma F64EqualReflexive(a: real)
    ensures F64Equal(a, a)
  {}

  /** The comparison does not depend on the order of its arguments. */
  lemma F64EqualSymmetric(a: real, b: real)
    ensures F64Equal(a, b) == F64Equal(b, a)
  {}

  /** The bound is strict: a difference of exactly one epsilon, either way, is not equal. */
  lemma F64EqualStrictBound(a: real, b: real)
    requires Abs(a - b) == F64_EPSILON
    ensures !F64Equal(a, b)
  {}

  /** Tolerance equality is not transitive: three points spaced 0.6 epsilon apart
      are pairwise neighbours-equal but the outer two are not. */
  lemma F64EqualNotTransitive()
    ensures exists a: real, b: real, c: real ::
              F64Equal(a, b) && F64Equal(b, c) && !F64Equal(a, c)
  {
    var d := F64_EPSILON * 0.6;
    assert F64Equal(0.0, d) && F64Equal(d, 2.0 * d) && !F64Equal(0.0, 2.0 * d);
  }
}
