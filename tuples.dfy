/** The homogeneous tuple `PV` of src/tuples.rs: four scalars (x, y, z, w) where the tag
    w = 1 marks a point and w = 0 a vector.

    `PV` is a `Copy` value, so it is a datatype here. Its `add` and `sub` work through
    `&mut self`: they overwrite the four fields of the place they are called on, then check
    the mutated tuple. That place is the class `PVRef`, whose fields are the four scalars. */
module Tuples {
  import opened Helpers

  /** The tuple `PV(.0, .1, .2, .3)`; the destructors `x`, `y`, `z` play the role of the
      accessors `x()`, `y()`, `z()`, and `w` is the tag `.3`, which has no accessor. */
  datatype PV = PV(x: real, y: real, z: real, w: real)

  /** The error of a rejected `add` or `sub`. */
  datatype InvalidOperation = InvalidAddition | InvalidSubtraction

  /** `Result<T>` with `InvalidOperation` as its error type. */
  datatype Result<T> = Ok(value: T) | Err(error: InvalidOperation)

  /** `PV::new(x, y, z, w)`: stores its four arguments in order, whatever the tag. */
  function New(x: real, y: real, z: real, w: real): (t: PV)
    ensures t.x == x && t.y == y && t.z == z && t.w == w
  {
    PV(x, y, z, w)
  }

  /** `PV::point(x, y, z)`: the tuple with tag 1.0. */
  function Point(x: real, y: real, z: real): (t: PV)
    ensures t == New(x, y, z, 1.0)
  {
    PV(x, y, z, 1.0)
  }

  /** `PV::vector(x, y, z)`: the tuple with tag 0.0. */
  function Vector(x: real, y: real, z: real): (t: PV)
    ensures t == New(x, y, z, 0.0)
  {
    PV(x, y, z, 0.0)
  }

  /** `is_point`: the tag is within f32::EPSILON of 1.0, strictly. */
  function IsPoint(t: PV): (r: bool)
    ensures r <==> 1.0 - F32_EPSILON < t.w < 1.0 + F32_EPSILON
  {
    Abs(t.w - 1.0) < F32_EPSILON
  }

  /** A tuple whose tag is exactly that of a point or of a vector. */
  predicate IsPure(t: PV)
  {
    t.w == 0.0 || t.w == 1.0
  }

  /** `is_valid`: despite its name, true for a tag strictly between 0 and 1, the tuples
      that are neither a point nor a vector. `add` and `sub` reject such a result.
      Both ends are excluded, so a tuple tagged exactly 0 or 1 is never flagged. */
  function IsValid(t: PV): (r: bool)
    ensures IsPure(t) ==> !r
  {
    t.w < 1.0 && t.w > 0.0
  }

  /** The four scalars after `self.0 += other.0; ...; self.3 += other.3`. */
  function Sum(a: PV, b: PV): PV
  {
    PV(a.x + b.x, a.y + b.y, a.z + b.z, a.w + b.w)
  }

  /** The four scalars after `self.0 -= other.0; ...; self.3 -= other.3`;
      adding `b` back restores `a`. */
  function Difference(a: PV, b: PV): (r: PV)
    ensures Sum(r, b) == a
  {
    PV(a.x - b.x, a.y - b.y, a.z - b.z, a.w - b.w)
  }

  /** Adding field by field commutes, and subtracting the operand again undoes it. */
  lemma SumUndoneByDifference(a: PV, b: PV)
    ensures Difference(Sum(a, b), b) == a
    ensures Sum(a, b) == Sum(b, a)
  {}

  /** A mutable place holding a `PV`, the `self` of `add` and `sub`. */
  class PVRef {
    var x: real
    var y: real
    var z: real
    var w: real

    /** The tuple currently stored in the place. */
    function Value(): PV
      reads this
    {
      PV(x, y, z, w)
    }

    constructor (t: PV)
      ensures Value() == t
    {
      x, y, z, w := t.x, t.y, t.z, t.w;
    }

    /** `add`: adds `other` field by field into `self`, tag included, then rejects the sum
        when its tag is strictly between 0 and 1. The fields stay summed on the error path;
        on success the result is `self` itself. */
    method Add(other: PV) returns (r: Result<PVRef>)
      modifies this
      ensures Value() == Sum(old(Value()), other)
      ensures r.Err? <==> 0.0 < old(w) + other.w < 1.0
      ensures r == if IsValid(Value()) then Err(InvalidAddition) else Ok(this)
    {
      x := x + other.x;
      y := y + other.y;
      z := z + other.z;
      w := w + other.w;
      if IsValid(Value()) {
        return Err(InvalidAddition);
      }
      return Ok(this);
    }

    /** `sub`: subtracts `other` field by field from `self`, tag included, then rejects the
        difference when its tag is strictly between 0 and 1, without undoing the update. */
    method Sub(other: PV) returns (r: Result<PVRef>)
      modifies this
      ensures Value() == Difference(old(Value()), other)
      ensures r.Err? <==> 0.0 < old(w) - other.w < 1.0
      ensures r == if IsValid(Value()) then Err(InvalidSubtraction) else Ok(this)
    {
      x := x - other.x;
      y := y - other.y;
      z := z - other.z;
      w := w - other.w;
      if IsValid(Value()) {
        return Err(InvalidSubtraction);
      }
      return Ok(this);
    }
  }

  /** `point` and `vector` keep the coordinates, `point` is classified as a point and `vector`
      is not, the two differ under the derived equality, and neither is flagged by `is_valid`. */
  lemma PointsAndVectorsClassified(x: real, y: real, z: real)
    ensures Point(x, y, z).x == x && Point(x, y, z).y == y && Point(x, y, z).z == z
    ensures Vector(x, y, z).x == x && Vector(x, y, z).y == y && Vector(x, y, z).z == z
    ensures IsPoint(Point(x, y, z)) && !IsPoint(Vector(x, y, z))
    ensures Point(x, y, z) != Vector(x, y, z)
    ensures !IsValid(Point(x, y, z)) && !IsValid(Vector(x, y, z))
  {
    EpsilonsAreSmallPositive();
  }

  /** The tolerance band of `is_point` reaches into the interval `is_valid` flags:
      some tuple is classified as a point and flagged at the same time. */
  lemma PointAndFlaggedOverlap()
    ensures exists t: PV :: IsPoint(t) && IsValid(t)
  {
    EpsilonsAreSmallPositive();
    var t := New(0.0, 0.0, 0.0, 1.0 - F32_EPSILON / 2.0);
    assert IsPoint(t) && IsValid(t);
  }

  /** When both operands are points or vectors, the tag of a sum is 0, 1 or 2 and that of a
      difference is -1, 0 or 1, so neither `add` nor `sub` ever reports an error. */
  lemma PureOperandsNeverRejected(a: PV, b: PV)
    requires IsPure(a) && IsPure(b)
    ensures Sum(a, b).w == 0.0 || Sum(a, b).w == 1.0 || Sum(a, b).w == 2.0
    ensures Difference(a, b).w == -1.0 || Difference(a, b).w == 0.0 || Difference(a, b).w == 1.0
    ensures !IsValid(Sum(a, b)) && !IsValid(Difference(a, b))
  {}

  /** The tags follow the geometry: point + vector and vector + point are points,
      vector + vector is a vector, point - vector is a point, point - point is a vector. */
  lemma TagsFollowGeometry(p: PV, q: PV, u: PV, v: PV)
    requires p.w == 1.0 && q.w == 1.0 && u.w == 0.0 && v.w == 0.0
    ensures IsPoint(Sum(p, v)) && IsPoint(Sum(v, p))
    ensures Sum(u, v).w == 0.0 && !IsPoint(Sum(u, v))
    ensures IsPoint(Difference(p, v))
    ensures Difference(p, q).w == 0.0 && !IsPoint(Difference(p, q))
  {
    EpsilonsAreSmallPositive();
  }

  /** point(3, -2, 5) + vector(-2, 3, 1) succeeds in place and leaves point(1, 1, 6). */
  method PointPlusVectorScenario() returns (t: PV)
    ensures t == Point(1.0, 1.0, 6.0) && IsPoint(t)
  {
    var a := new PVRef(Point(3.0, -2.0, 5.0));
    var r := a.Add(Vector(-2.0, 3.0, 1.0));
    assert r == Ok(a);
    t := a.Value();
  }

  /** point(3, -2, 5) - vector(-2, 3, 1) succeeds in place and leaves point(5, -5, 4). */
  method PointMinusVectorScenario() returns (t: PV)
    ensures t == Point(5.0, -5.0, 4.0) && IsPoint(t)
  {
    var a := new PVRef(Point(3.0, -2.0, 5.0));
    var r := a.Sub(Vector(-2.0, 3.0, 1.0));
    assert r == Ok(a);
    t := a.Value();
  }

  /** point(3, -2, 5) - point(-2, 3, 1) succeeds in place and leaves vector(5, -5, 4). */
  method PointMinusPointScenario() returns (t: PV)
    ensures t == Vector(5.0, -5.0, 4.0) && !IsPoint(t)
  {
    var a := new PVRef(Point(3.0, -2.0, 5.0));
    var r := a.Sub(Point(-2.0, 3.0, 1.0));
    assert r == Ok(a);
    t := a.Value();
  }

  /** A rejected addition still leaves the sum in place: a tuple tagged 0.25 plus a vector
      reports `InvalidAddition`, and the place holds the summed tuple afterwards. */
  method RejectedAdditionKeepsSum() returns (e: InvalidOperation, t: PV)
    ensures e == InvalidAddition
    ensures t == New(1.0, 2.0, 3.0, 0.25)
  {
    var a := new PVRef(New(0.0, 0.0, 0.0, 0.25));
    var r := a.Add(Vector(1.0, 2.0, 3.0));
    e := r.error;
    t := a.Value();
  }

  /** As written, point + point is accepted: the sum is tagged 2.0 and no error is reported. */
  method PointPlusPointAccepted() returns (ok: bool, t: PV)
    ensures ok && t == New(1.0, 1.0, 6.0, 2.0)
  {
    var a := new PVRef(Point(3.0, -2.0, 5.0));
    var r := a.Add(Point(-2.0, 3.0, 1.0));
    ok := r.Ok?;
    t := a.Value();
  }

  /** As written, vector - point is accepted: the difference is tagged -1.0 and no error
      is reported. */
  method VectorMinusPointAccepted() returns (ok: bool, t: PV)
    ensures ok && t == New(5.0, -5.0, 4.0, -1.0)
  {
    var a := new PVRef(Vector(3.0, -2.0, 5.0));
    var r := a.Sub(Point(-2.0, 3.0, 1.0));
    ok := r.Ok?;
    t := a.Value();
  }

  /** Corrected addition: the sum is rejected unless it is exactly a point or a vector. */
  function CheckedAdd(a: PV, b: PV): (r: Result<PV>)
    ensures r.Ok? ==> r.value == Sum(a, b) && IsPure(r.value)
    ensures r.Err? ==> r.error == InvalidAddition && !IsPure(Sum(a, b))
  {
    var s := Sum(a, b);
    if IsPure(s) then Ok(s) else Err(InvalidAddition)
  }

  /** Corrected subtraction: the difference is rejected unless it is exactly a point or a vector. */
  function CheckedSub(a: PV, b: PV): (r: Result<PV>)
    ensures r.Ok? ==> r.value == Difference(a, b) && IsPure(r.value)
    ensures r.Err? ==> r.error == InvalidSubtraction && !IsPure(Difference(a, b))
  {
    var d := Difference(a, b);
    if IsPure(d) then Ok(d) else Err(InvalidSubtraction)
  }

  /** On points and vectors the corrected operations reject exactly the combinations the
      error messages name: point + point, and a point subtracted from a vector. */
  lemma CheckedOpsRejectExactlyMeaningless(a: PV, b: PV)
    requires IsPure(a) && IsPure(b)
    ensures CheckedAdd(a, b).Err? <==> a.w == 1.0 && b.w == 1.0
    ensures CheckedSub(a, b).Err? <==> a.w == 0.0 && b.w == 1.0
  {}
}
