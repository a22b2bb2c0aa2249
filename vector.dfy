/** The typed `Vector` that src/point.rs and src/main.rs use.
    Its own source file (src/vector.rs) is not part of this model: only what its callers
    rely on is modelled, a coordinate triple read through `x()`, `y()` and `z()`,
    `Vector::new`, ASSUMED to store its arguments in order, and `Vector + Vector`, which
    src/main.rs needs and which is ASSUMED to be componentwise. */
module Vectors {

  /** A free vector; the destructors `x`, `y`, `z` play the role of the accessors. */
  datatype Vector = Vector(x: real, y: real, z: real)

  /** `Vector::new(x, y, z)` as src/main.rs calls it, ASSUMED to store its arguments in order. */
  function New(x: real, y: real, z: real): (v: Vector)
    ensures v.x == x && v.y == y && v.z == z
  {
    Vector(x, y, z)
  }

  /** The zero vector, the neutral element of `Plus`. */
  const ZERO: Vector := Vector(0.0, 0.0, 0.0)

  /** `Vector + Vector`, ASSUMED to add coordinate by coordinate; the zero vector is neutral
      on either side. */
  function Plus(a: Vector, b: Vector): (r: Vector)
    ensures a == ZERO ==> r == b
    ensures b == ZERO ==> r == a
  {
    Vector(a.x + b.x, a.y + b.y, a.z + b.z)
  }
}
