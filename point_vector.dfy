// Three-component points and vectors (TPoint3 / TVector3) over the reals.
// Pure operators are functions on the `Point3` / `Vector3` values; the
// compound assignment operators and setters are methods of the `TPoint3`
// and `TVector3` classes, which update their storage in place.
// The square root behind `magnitude` and `distance` is never computed: a
// magnitude is either passed in as a function `mag` or characterised by
// `IsMagnitude`.
module PointVector {

  /** POINTVECTOR_EQUALITY_TOL, written `10e-5` in the header, i.e. 1e-4. */
  const Tol: real := 0.0001

  function Abs(r: real): real { if r < 0.0 then -r else r }

  datatype Point3 = Point3(x: real, y: real, z: real)

  /** The default constructor: every coordinate zero. */
  function Origin(): (p: Point3)
    ensures p.x == 0.0 && p.y == 0.0 && p.z == 0.0
  {
    Point3(0.0, 0.0, 0.0)
  }

  /** The one-value conversion constructor: all three coordinates equal `value`. */
  function Splat(value: real): (p: Point3)
    ensures p.x == value && p.y == value && p.z == value
  {
    Point3(value, value, value)
  }

  /** The array constructor reads the first three entries. */
  function FromArray(a: seq<real>): (p: Point3)
    requires |a| >= 3
    ensures Coord(p, 0) == a[0] && Coord(p, 1) == a[1] && Coord(p, 2) == a[2]
  {
    Point3(a[0], a[1], a[2])
  }

  /** operator[]: index 0, 1, 2 is x, y, z. */
  function Coord(p: Point3, idx: nat): real
    requires idx < 3
  {
    if idx == 0 then p.x else if idx == 1 then p.y else p.z
  }

  /** Component-wise binary operators on two points. */
  function Add(a: Point3, b: Point3): (r: Point3)
    ensures forall i :: 0 <= i < 3 ==> Coord(r, i) == Coord(a, i) + Coord(b, i)
  {
    Point3(a.x + b.x, a.y + b.y, a.z + b.z)
  }

  function Sub(a: Point3, b: Point3): (r: Point3)
    ensures forall i :: 0 <= i < 3 ==> Coord(r, i) == Coord(a, i) - Coord(b, i)
  {
    Point3(a.x - b.x, a.y - b.y, a.z - b.z)
  }

  function Mul(a: Point3, b: Point3): (r: Point3)
    ensures forall i :: 0 <= i < 3 ==> Coord(r, i) == Coord(a, i) * Coord(b, i)
  {
    Point3(a.x * b.x, a.y * b.y, a.z * b.z)
  }

  function Div(a: Point3, b: Point3): (r: Point3)
    requires b.x != 0.0 && b.y != 0.0 && b.z != 0.0
    ensures forall i :: 0 <= i < 3 ==> Coord(r, i) * Coord(b, i) == Coord(a, i)
  {
    Point3(a.x / b.x, a.y / b.y, a.z / b.z)
  }

  /** Binary operators with a scalar on the right. */
  function AddScalar(a: Point3, s: real): (r: Point3)
    ensures forall i :: 0 <= i < 3 ==> Coord(r, i) == Coord(a, i) + s
  {
    Point3(a.x + s, a.y + s, a.z + s)
  }

  function SubScalar(a: Point3, s: real): (r: Point3)
    ensures forall i :: 0 <= i < 3 ==> Coord(r, i) == Coord(a, i) - s
  {
    Point3(a.x - s, a.y - s, a.z - s)
  }

  function Scale(a: Point3, s: real): (r: Point3)
    ensures forall i :: 0 <= i < 3 ==> Coord(r, i) == Coord(a, i) * s
  {
    Point3(a.x * s, a.y * s, a.z * s)
  }

  function DivScalar(a: Point3, s: real): (r: Point3)
    requires s != 0.0
    ensures forall i :: 0 <= i < 3 ==> Coord(r, i) * s == Coord(a, i)
  {
    Point3(a.x / s, a.y / s, a.z / s)
  }

  /** TPoint3 operator==: every coordinate differs by less than the tolerance. */
  predicate PtEq(a: Point3, b: Point3)
  {
    Abs(a.x - b.x) < Tol && Abs(a.y - b.y) < Tol && Abs(a.z - b.z) < Tol
  }

  /** TPoint3 operator!=, the negation of operator==. */
  function PtNe(a: Point3, b: Point3): (r: bool)
    ensures r <==> (Tol <= Abs(a.x - b.x) || Tol <= Abs(a.y - b.y) || Tol <= Abs(a.z - b.z))
  {
    !PtEq(a, b)
  }

  lemma PtEqReflexiveSymmetric(a: Point3, b: Point3)
    ensures PtEq(a, a) && !PtNe(a, a)
    ensures PtEq(a, b) <==> PtEq(b, a)
  {
  }

  /** Tolerance equality is not transitive. */
  lemma PtEqNotTransitive()
    ensures PtEq(Origin(), Point3(0.00006, 0.0, 0.0))
    ensures PtEq(Point3(0.00006, 0.0, 0.0), Point3(0.00012, 0.0, 0.0))
    ensures !PtEq(Origin(), Point3(0.00012, 0.0, 0.0))
  {
  }

  /** A TVector3 is a pair of points; its components are end minus start. */
  datatype Vector3 = Vector3(start: Point3, end: Point3)

  function VX(v: Vector3): real { v.end.x - v.start.x }
  function VY(v: Vector3): real { v.end.y - v.start.y }
  function VZ(v: Vector3): real { v.end.z - v.start.z }

  /** The single-point constructors put the start at the origin. */
  function FromEnd(e: Point3): (v: Vector3)
    ensures v.start == Origin()
    ensures VX(v) == e.x && VY(v) == e.y && VZ(v) == e.z
  {
    Vector3(Origin(), e)
  }

  /** The default constructor: start and end at the origin. */
  function ZeroVector(): (v: Vector3)
    ensures v.start == Origin() && VX(v) == 0.0 && VY(v) == 0.0 && VZ(v) == 0.0
  {
    Vector3(Origin(), Origin())
  }

  function Dot(a: Vector3, b: Vector3): real
  {
    VX(a) * VX(b) + VY(a) * VY(b) + VZ(a) * VZ(b)
  }

  /** The determinant formula; the result starts at the origin. */
  function Cross(a: Vector3, b: Vector3): (r: Vector3)
    ensures r.start == Origin()
    ensures VX(r) == VY(a) * VZ(b) - VZ(a) * VY(b)
    ensures VY(r) == VZ(a) * VX(b) - VX(a) * VZ(b)
    ensures VZ(r) == VX(a) * VY(b) - VY(a) * VX(b)
  {
    FromEnd(Point3(VY(a) * VZ(b) - VZ(a) * VY(b),
                   VZ(a) * VX(b) - VX(a) * VZ(b),
                   VX(a) * VY(b) - VY(a) * VX(b)))
  }

  lemma DotSymmetric(a: Vector3, b: Vector3)
    ensures Dot(a, b) == Dot(b, a)
  {
  }

  lemma CrossSelfIsZero(v: Vector3)
    ensures VX(Cross(v, v)) == 0.0 && VY(Cross(v, v)) == 0.0 && VZ(Cross(v, v)) == 0.0
  {
  }

  /** The cross product is perpendicular to both of its operands. */
  lemma CrossOrthogonal(a: Vector3, b: Vector3)
    ensures Dot(Cross(a, b), a) == 0.0 && Dot(Cross(a, b), b) == 0.0
  {
    var c := Cross(a, b);
    calc {
      Dot(c, a);
      (VY(a) * VZ(b) - VZ(a) * VY(b)) * VX(a) + (VZ(a) * VX(b) - VX(a) * VZ(b)) * VY(a)
        + (VX(a) * VY(b) - VY(a) * VX(b)) * VZ(a);
      0.0;
    }
    calc {
      Dot(c, b);
      (VY(a) * VZ(b) - VZ(a) * VY(b)) * VX(b) + (VZ(a) * VX(b) - VX(a) * VZ(b)) * VY(b)
        + (VX(a) * VY(b) - VY(a) * VX(b)) * VZ(b);
      0.0;
    }
  }

  /** The squared length under the square root of `magnitude`. */
  function SqNorm(v: Vector3): (r: real)
    ensures r >= 0.0
    ensures r == Dot(v, v)
  {
    VX(v) * VX(v) + VY(v) * VY(v) + VZ(v) * VZ(v)
  }

  /** `m` is what `magnitude` returns for `v`: the non-negative square root of its squared length. */
  predicate IsMagnitude(v: Vector3, m: real)
  {
    m >= 0.0 && m * m == SqNorm(v)
  }

  /** The squared value under the square root of `distance`, which compares the two components. */
  function SqDistance(a: Vector3, b: Vector3): (r: real)
    ensures r >= 0.0
  {
    (VX(b) - VX(a)) * (VX(b) - VX(a)) + (VY(b) - VY(a)) * (VY(b) - VY(a))
      + (VZ(b) - VZ(a)) * (VZ(b) - VZ(a))
  }

  lemma SqDistanceSymmetric(a: Vector3, b: Vector3)
    ensures SqDistance(a, b) == SqDistance(b, a)
  {
  }

  /** `normalize` given the magnitude `magn` of `v`: the zero vector when it is 0. */
  function Normalize(v: Vector3, magn: real): (r: Vector3)
    ensures r.start == Origin()
    ensures magn == 0.0 ==> VX(r) == 0.0 && VY(r) == 0.0 && VZ(r) == 0.0
    ensures magn != 0.0 ==> VX(r) * magn == VX(v) && VY(r) * magn == VY(v) && VZ(r) * magn == VZ(v)
  {
    if magn != 0.0 then FromEnd(Point3(VX(v) / magn, VY(v) / magn, VZ(v) / magn))
    else FromEnd(Origin())
  }

  /** Normalising divides the squared length by magn squared; with the true magnitude the result has unit length. */
  lemma NormalizeScalesSqNorm(v: Vector3, magn: real)
    requires magn != 0.0
    ensures SqNorm(Normalize(v, magn)) * (magn * magn) == SqNorm(v)
  {
    var r := Normalize(v, magn);
    calc {
      SqNorm(r) * (magn * magn);
      (VX(r) * magn) * (VX(r) * magn) + (VY(r) * magn) * (VY(r) * magn) + (VZ(r) * magn) * (VZ(r) * magn);
      VX(v) * VX(v) + VY(v) * VY(v) + VZ(v) * VZ(v);
    }
  }

  /** TVector3 binary `+`: a copy of `lhs` whose end is replaced by `rhs.end` (it does not add). */
  function VAdd(lhs: Vector3, rhs: Vector3): (r: Vector3)
    ensures r.start == lhs.start && r.end == rhs.end
  {
    lhs.(end := rhs.end)
  }

  /** TVector3 binary `-`: a copy of `lhs` whose end is `rhs.end * -1`. */
  function VSub(lhs: Vector3, rhs: Vector3): (r: Vector3)
    ensures r.start == lhs.start && r.end == Point3(-rhs.end.x, -rhs.end.y, -rhs.end.z)
  {
    lhs.(end := Scale(rhs.end, -1.0))
  }

  /** TVector3 `* scalar`: the end point is scaled, the start kept. */
  function VScale(lhs: Vector3, s: real): (r: Vector3)
    ensures r.start == lhs.start
    ensures r.end.x == lhs.end.x * s && r.end.y == lhs.end.y * s && r.end.z == lhs.end.z * s
  {
    lhs.(end := Scale(lhs.end, s))
  }

  /** TVector3 `/ scalar`: the end point is divided, the start kept. */
  function VDiv(lhs: Vector3, s: real): (r: Vector3)
    requires s != 0.0
    ensures r.start == lhs.start
    ensures r.end.x * s == lhs.end.x && r.end.y * s == lhs.end.y && r.end.z * s == lhs.end.z
  {
    lhs.(end := DivScalar(lhs.end, s))
  }

  /** The vector `+` keeps the left vector only through its start, so it is not addition. */
  lemma VAddIsNotAddition()
    ensures VX(VAdd(FromEnd(Point3(1.0, 0.0, 0.0)), FromEnd(Point3(0.0, 1.0, 0.0)))) == 0.0
  {
  }

  /** TVector3 operator==: magnitudes differ by less than the tolerance. */
  predicate VecEq(mag: Vector3 -> real, a: Vector3, b: Vector3)
  {
    Abs(mag(a) - mag(b)) < Tol
  }

  function VecNe(mag: Vector3 -> real, a: Vector3, b: Vector3): (r: bool)
    ensures r <==> Tol <= Abs(mag(a) - mag(b))
  {
    !VecEq(mag, a, b)
  }

  /** Vectors of different direction but equal length compare equal. */
  lemma VecEqIgnoresDirection(mag: Vector3 -> real, a: Vector3, b: Vector3)
    requires mag(a) == mag(b)
    ensures VecEq(mag, a, b) && !VecNe(mag, a, b)
  {
  }

  /** operator<: smaller magnitude. */
  predicate VecLt(mag: Vector3 -> real, lhs: Vector3, rhs: Vector3)
  {
    mag(lhs) < mag(rhs)
  }

  /** operator>: rhs < lhs. */
  predicate VecGt(mag: Vector3 -> real, lhs: Vector3, rhs: Vector3)
  {
    VecLt(mag, rhs, lhs)
  }

  /** operator<= as written, `!(lhs > lhs)`: true for every pair. */
  function VecLe(mag: Vector3 -> real, lhs: Vector3, rhs: Vector3): (r: bool)
    ensures r
  {
    !VecGt(mag, lhs, lhs)
  }

  /** operator>= as written, `!(lhs < lhs)`: true for every pair. */
  function VecGe(mag: Vector3 -> real, lhs: Vector3, rhs: Vector3): (r: bool)
    ensures r
  {
    !VecLt(mag, lhs, lhs)
  }

  /** operator<= compared against the right-hand side. */
  function VecLeCorrected(mag: Vector3 -> real, lhs: Vector3, rhs: Vector3): (r: bool)
    ensures r <==> mag(lhs) <= mag(rhs)
  {
    !VecGt(mag, lhs, rhs)
  }

  /** operator>= compared against the right-hand side. */
  function VecGeCorrected(mag: Vector3 -> real, lhs: Vector3, rhs: Vector3): (r: bool)
    ensures r <==> mag(lhs) >= mag(rhs)
  {
    !VecLt(mag, lhs, rhs)
  }

  /** A longer vector is reported `<=` a shorter one by the operator as written. */
  lemma VecLeAsWrittenDisagrees(mag: Vector3 -> real, lhs: Vector3, rhs: Vector3)
    requires mag(lhs) > mag(rhs)
    ensures VecLe(mag, lhs, rhs) && !VecLeCorrected(mag, lhs, rhs)
    ensures VecGe(mag, rhs, lhs) && !VecGeCorrected(mag, rhs, lhs)
  {
  }

  /** `parallel`: the dot product is within the tolerance of zero (so it tests perpendicularity). */
  function Parallel(a: Vector3, b: Vector3): (r: bool)
    ensures r <==> -Tol < Dot(a, b) < Tol
  {
    Abs(Dot(a, b) - 0.0) < Tol
  }

  /** The x and y axes are reported parallel; a unit vector is not parallel to itself. */
  lemma ParallelMeansPerpendicular()
    ensures Parallel(FromEnd(Point3(1.0, 0.0, 0.0)), FromEnd(Point3(0.0, 1.0, 0.0)))
    ensures !Parallel(FromEnd(Point3(1.0, 0.0, 0.0)), FromEnd(Point3(1.0, 0.0, 0.0)))
  {
  }

  /** A TPoint3 object: three coordinates stored in a fixed array of length 3. */
  class TPoint3 {
    var rgCoord: array<real>

    ghost predicate Valid()
      reads this
    {
      rgCoord.Length == 3
    }

    /** The coordinates as a value. */
    function Value(): Point3
      reads this, rgCoord
      requires Valid()
    {
      Point3(rgCoord[0], rgCoord[1], rgCoord[2])
    }

    constructor ()
      ensures Valid() && fresh(rgCoord) && Value() == Origin()
    {
      rgCoord := new real[3] [0.0, 0.0, 0.0];
    }

    constructor FromValue(value: real)
      ensures Valid() && fresh(rgCoord) && Value() == Splat(value)
    {
      rgCoord := new real[3] [value, value, value];
    }

    constructor FromXYZ(xValue: real, yValue: real, zValue: real)
      ensures Valid() && fresh(rgCoord) && Value() == Point3(xValue, yValue, zValue)
    {
      rgCoord := new real[3] [xValue, yValue, zValue];
    }

    constructor FromCoords(p: array<real>)
      requires p.Length >= 3
      ensures Valid() && fresh(rgCoord) && Value() == FromArray(p[..])
    {
      rgCoord := new real[3] [p[0], p[1], p[2]];
    }

    /** Copy constructor. */
    constructor Copy(rhs: TPoint3)
      requires rhs.Valid()
      ensures Valid() && fresh(rgCoord) && Value() == rhs.Value()
    {
      rgCoord := new real[3] [rhs.rgCoord[0], rhs.rgCoord[1], rhs.rgCoord[2]];
    }

    /** operator=: copies the coordinates unless `rhs` is this very object. */
    method Assign(rhs: TPoint3)
      requires Valid() && rhs.Valid()
      modifies rgCoord
      ensures Valid() && Value() == old(rhs.Value())
    {
      if this != rhs {
        var r0, r1, r2 := rhs.rgCoord[0], rhs.rgCoord[1], rhs.rgCoord[2];
        rgCoord[0], rgCoord[1], rgCoord[2] := r0, r1, r2;
      }
    }

    method AddAssign(rhs: Point3)
      requires Valid()
      modifies rgCoord
      ensures Valid() && Value() == Add(old(Value()), rhs)
    {
      rgCoord[0] := rgCoord[0] + rhs.x;
      rgCoord[1] := rgCoord[1] + rhs.y;
      rgCoord[2] := rgCoord[2] + rhs.z;
    }

    method SubAssign(rhs: Point3)
      requires Valid()
      modifies rgCoord
      ensures Valid() && Value() == Sub(old(Value()), rhs)
    {
      rgCoord[0] := rgCoord[0] - rhs.x;
      rgCoord[1] := rgCoord[1] - rhs.y;
      rgCoord[2] := rgCoord[2] - rhs.z;
    }

    method MulAssign(rhs: Point3)
      requires Valid()
      modifies rgCoord
      ensures Valid() && Value() == Mul(old(Value()), rhs)
    {
      rgCoord[0] := rgCoord[0] * rhs.x;
      rgCoord[1] := rgCoord[1] * rhs.y;
      rgCoord[2] := rgCoord[2] * rhs.z;
    }

    method DivAssign(rhs: Point3)
      requires Valid()
      requires rhs.x != 0.0 && rhs.y != 0.0 && rhs.z != 0.0
      modifies rgCoord
      ensures Valid() && Value() == Div(old(Value()), rhs)
    {
      rgCoord[0] := rgCoord[0] / rhs.x;
      rgCoord[1] := rgCoord[1] / rhs.y;
      rgCoord[2] := rgCoord[2] / rhs.z;
    }

    method AddScalarAssign(s: real)
      requires Valid()
      modifies rgCoord
      ensures Valid() && Value() == AddScalar(old(Value()), s)
    {
      rgCoord[0] := rgCoord[0] + s;
      rgCoord[1] := rgCoord[1] + s;
      rgCoord[2] := rgCoord[2] + s;
    }

    method SubScalarAssign(s: real)
      requires Valid()
      modifies rgCoord
      ensures Valid() && Value() == SubScalar(old(Value()), s)
    {
      rgCoord[0] := rgCoord[0] - s;
      rgCoord[1] := rgCoord[1] - s;
      rgCoord[2] := rgCoord[2] - s;
    }

    method MulScalarAssign(s: real)
      requires Valid()
      modifies rgCoord
      ensures Valid() && Value() == Scale(old(Value()), s)
    {
      rgCoord[0] := rgCoord[0] * s;
      rgCoord[1] := rgCoord[1] * s;
      rgCoord[2] := rgCoord[2] * s;
    }

    method DivScalarAssign(s: real)
      requires Valid() && s != 0.0
      modifies rgCoord
      ensures Valid() && Value() == DivScalar(old(Value()), s)
    {
      rgCoord[0] := rgCoord[0] / s;
      rgCoord[1] := rgCoord[1] / s;
      rgCoord[2] := rgCoord[2] / s;
    }

    /** operator[] read access. */
    method At(idx: nat) returns (c: real)
      requires Valid() && idx < 3
      ensures c == Coord(Value(), idx)
    {
      c := rgCoord[idx];
    }

    /** operator[] write access (also the x/y/z and set_x/set_y/set_z setters). */
    method SetCoord(idx: nat, value: real)
      requires Valid() && idx < 3
      modifies rgCoord
      ensures Valid()
      ensures Coord(Value(), idx) == value
      ensures forall j :: 0 <= j < 3 && j != idx ==> Coord(Value(), j) == Coord(old(Value()), j)
    {
      rgCoord[idx] := value;
    }
  }

  /** A TVector3 object: a start and an end point, updated in place by the compound operators. */
  class TVector3 {
    var start: Point3
    var end: Point3

    function Value(): Vector3
      reads this
    {
      Vector3(start, end)
    }

    constructor ()
      ensures Value() == ZeroVector()
    {
      start, end := Origin(), Origin();
    }

    constructor FromEndPoint(endPt: Point3)
      ensures Value() == FromEnd(endPt)
    {
      start, end := Origin(), endPt;
    }

    constructor FromPoints(startPt: Point3, endPt: Point3)
      ensures start == startPt && end == endPt
    {
      start, end := startPt, endPt;
    }

    /** operator=; self-assignment leaves the object as it is. */
    method Assign(rhs: TVector3)
      modifies this
      ensures Value() == old(rhs.Value())
    {
      if this != rhs {
        start, end := rhs.start, rhs.end;
      }
    }

    /** operator+=: the end point becomes `rhs.end`. */
    method AddAssign(rhs: Vector3)
      modifies this
      ensures Value() == VAdd(old(Value()), rhs)
    {
      end := rhs.end;
    }

    /** operator-=: the end point becomes `rhs.end * -1`. */
    method SubAssign(rhs: Vector3)
      modifies this
      ensures Value() == VSub(old(Value()), rhs)
    {
      end := Scale(rhs.end, -1.0);
    }

    /** operator*= with a vector returns the cross product and leaves this vector unchanged. */
    method CrossAssign(rhs: Vector3) returns (r: Vector3)
      ensures r == Cross(Value(), rhs)
    {
      r := Cross(Value(), rhs);
    }

    method MulScalarAssign(s: real)
      modifies this
      ensures Value() == VScale(old(Value()), s)
    {
      end := Scale(end, s);
    }

    method DivScalarAssign(s: real)
      requires s != 0.0
      modifies this
      ensures Value() == VDiv(old(Value()), s)
    {
      end := DivScalar(end, s);
    }

    method SetStartPt(value: Point3)
      modifies this
      ensures start == value && end == old(end)
    {
      start := value;
    }

    method SetEndPt(value: Point3)
      modifies this
      ensures end == value && start == old(start)
    {
      end := value;
    }
  }
}
