/** The typed `Point` of src/point.rs: a position with three coordinates and no runtime tag.
    Every operator takes the point by value and builds a new one, so each is a function here.
    The derived `PartialEq` is Dafny's structural equality on the datatype. */
module Points {
  import opened Vectors

  /** A position in space; the destructors `x`, `y`, `z` play the role of the accessors. */
  datatype Point = Point(x: real, y: real, z: real)

  /** `Point::new(x, y, z)`: the accessors give back the coordinates it was built from. */
  function New(x: real, y: real, z: real): (p: Point)
    ensures p.x == x && p.y == y && p.z == z
  {
    Point(x, y, z)
  }

  /** The derived `Default`: every coordinate is `f64::default()`, i.e. 0.0. */
  function Default(): (p: Point)
    ensures p == New(0.0, 0.0, 0.0)
  {
    Point(0.0, 0.0, 0.0)
  }

  /** `Point * k`: scales each coordinate by `k`; scaling by 1 changes nothing and scaling
      by 0 gives the origin. */
  function Mul(p: Point, k: real): (r: Point)
    ensures k == 1.0 ==> r == p
    ensures k == 0.0 ==> r == Default()
  {
    Point(p.x * k, p.y * k, p.z * k)
  }

  /** `Point - Vector`: moves the point back along the vector. */
  function Sub(p: Point, v: Vector): Point
  {
    Point(p.x - v.x, p.y - v.y, p.z - v.z)
  }

  /** `Point + Vector`: moves the point along the vector; moving back undoes it. */
  function Add(p: Point, v: Vector): (r: Point)
    ensures Sub(r, v) == p
  {
    Point(p.x + v.x, p.y + v.y, p.z + v.z)
  }

  /** `Point / k`: divides each coordinate by `k`; scaling back by `k` restores the point.
      A zero divisor, which f64 answers with infinities or NaN, has no real counterpart. */
  function Div(p: Point, k: real): (r: Point)
    requires k != 0.0
    ensures Mul(r, k) == p
  {
    Point(p.x / k, p.y / k, p.z / k)
  }

  /** `-p`: negates all three coordinates of the owned copy, i.e. scales by -1. */
  function Neg(p: Point): (r: Point)
    ensures r == Mul(p, -1.0)
  {
    Point(-p.x, -p.y, -p.z)
  }

  /** Translation adds, and moving back subtracts, coordinate by coordinate; moving forward
      again after moving back restores the point. */
  lemma AddSubCoordinates(p: Point, v: Vector)
    ensures Add(p, v) == New(p.x + v.x, p.y + v.y, p.z + v.z)
    ensures Sub(p, v) == New(p.x - v.x, p.y - v.y, p.z - v.z)
    ensures Add(Sub(p, v), v) == p
  {}

  /** Translating by two vectors in turn is translating by their (assumed componentwise) sum,
      and translating by the zero vector changes nothing. */
  lemma AddAssociates(p: Point, v1: Vector, v2: Vector)
    ensures Add(Add(p, v1), v2) == Add(p, Plus(v1, v2))
    ensures Add(p, ZERO) == p
  {}

  /** Scaling multiplies each coordinate, and scalings compose. */
  lemma MulScales(p: Point, a: real, b: real)
    ensures Mul(p, a) == New(p.x * a, p.y * a, p.z * a)
    ensures Mul(Mul(p, a), b) == Mul(p, a * b)
  {}

  /** Division by a non-zero scalar divides each coordinate, undoes scaling,
      and dividing by 1 is the identity. */
  lemma DivUndoesMul(p: Point, k: real)
    requires k != 0.0
    ensures Div(p, k) == New(p.x / k, p.y / k, p.z / k)
    ensures Div(Mul(p, k), k) == p
    ensures Div(p, 1.0) == p
  {}

  /** Negation flips every coordinate and is an involution. */
  lemma NegInvolution(p: Point)
    ensures Neg(p) == New(-p.x, -p.y, -p.z)
    ensures Neg(Neg(p)) == p
  {}

  /** The default point is the origin: translating it by `v` lands on `v`'s coordinates. */
  lemma DefaultIsOrigin(v: Vector)
    ensures Default().x == 0.0 && Default().y == 0.0 && Default().z == 0.0
    ensures Add(Default(), v) == New(v.x, v.y, v.z)
  {}
}
