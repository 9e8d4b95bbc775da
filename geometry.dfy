/**
 * Points, lines and planes of projective 3-space in homogeneous coordinates,
 * after JA.Geometry's Point, Line and Plane classes.
 *
 * - A Point (g, g0) is the affine position g / g0 when g0 != 0 and a direction
 *   at infinity when g0 == 0.
 * - A Plane (w, w0) is the set of positions r with w . r + w0 == 0; its normal
 *   is along w and w == 0 is the plane at infinity.
 * - A Line (v, m) is in Pluecker form: v along the line, m its moment about the
 *   origin; lines built from finite incident primitives satisfy v . m == 0.
 *
 * All three are immutable values, so they are datatypes, and the static
 * factories of the classes are static members of the datatypes. Floating point
 * is modelled by the reals. Where the source takes a Euclidean length
 * (Vector3.Length, Vector3.Normalize) the model takes that length as an
 * argument, constrained to be the non-negative square root it stands for.
 */
module Geometry {
  import opened Vectors
  import opened Results

  /** True when `length` is the Euclidean length of `v` */
  predicate IsLengthOf(length: real, v: Vec3) {
    length >= 0.0 && length * length == LengthSquared(v)
  }

  datatype Point = Point(vector: Vec3, scalar: real) {

    static const Origin := Point(Zero, 1.0)
    static const InfX := Point(UnitX, 0.0)
    static const InfY := Point(UnitY, 0.0)
    static const InfZ := Point(UnitZ, 0.0)

    /** The finite point at `position`; also the implicit conversion from Vector3 */
    static function FromPosition(position: Vec3): Point {
      Point(position, 1.0)
    }

    static function FromCoordinates(x: real, y: real, z: real): Point {
      FromPosition(Vec3(x, y, z))
    }

    /** The point of `plane` closest to the origin */
    static function FromPlane(plane: Plane): Point {
      Point(Scale(-plane.scalar, plane.vector), LengthSquared(plane.vector))
    }

    /** The point of `line` closest to the origin */
    static function FromLine(line: Line): Point {
      Point(Cross(line.vector, line.moment), LengthSquared(line.vector))
    }

    /** The point where `plane` and `line` meet */
    static function Meet(plane: Plane, line: Line): Point {
      Point(Add(Cross(line.moment, plane.vector), Scale(plane.scalar, line.vector)),
            -Dot(plane.vector, line.vector))
    }

    /** The point where three planes meet: the first plane met with the line of the other two */
    static function MeetPlanes(plane1: Plane, plane2: Plane, plane3: Plane): Point {
      Meet(plane1, Line.Meet(plane2, plane3))
    }

    function Magnitude(): real {
      if scalar < 0.0 then -scalar else scalar
    }

    /** The affine position; the source divides by zero for a point at infinity */
    function Position(): Vec3
      requires scalar != 0.0
    {
      Div(vector, scalar)
    }

    /** The numerator of the signed distance to `plane`, zero exactly when the point lies on it */
    function PlaneNumerator(plane: Plane): real {
      Dot(plane.vector, vector) + scalar * plane.scalar
    }

    predicate OnPlane(plane: Plane) {
      PlaneNumerator(plane) == 0.0
    }

    /** The numerator of the distance to `line`, a vector whose length the source divides */
    function LineNumerator(line: Line): Vec3 {
      Add(Cross(line.vector, vector), Scale(scalar, line.moment))
    }

    predicate OnLine(line: Line) {
      LineNumerator(line) == Zero
    }

    /** The signed distance to `plane`, given the length of the plane's vector */
    function DistanceToPlane(plane: Plane, planeLength: real): real
      requires scalar != 0.0 && planeLength > 0.0 && IsLengthOf(planeLength, plane.vector)
    {
      PlaneNumerator(plane) / (scalar * planeLength)
    }

    static function Lerp(from: Point, to: Point, amount: real): Point {
      Point(Add(Scale(1.0 - amount, from.vector), Scale(amount, to.vector)),
            (1.0 - amount) * from.scalar + amount * to.scalar)
    }

    /** The weighted sum of the points' homogeneous coordinates */
    static function Combination(points: seq<Point>, weights: seq<real>): Point
      requires |points| == |weights|
    {
      if |points| == 0 then Point(Zero, 0.0)
      else
        var n := |points| - 1;
        var rest := Combination(points[..n], weights[..n]);
        Point(Add(rest.vector, Scale(weights[n], points[n].vector)),
              rest.scalar + weights[n] * points[n].scalar)
    }

    static method Barycentric(points: seq<Point>, weights: seq<real>) returns (r: Result<Point>)
      ensures |points| != |weights| ==> r == Err(CountMismatch("weights"))
      ensures |points| == |weights| ==> r == Ok(Combination(points, weights))
    {
      if |points| != |weights| {
        return Err(CountMismatch("weights"));
      }
      var vec := Zero;
      var scl := 0.0;
      for i := 0 to |points|
        invariant Point(vec, scl) == Combination(points[..i], weights[..i])
      {
        assert points[..i + 1][..i] == points[..i] && weights[..i + 1][..i] == weights[..i];
        vec := Add(vec, Scale(weights[i], points[i].vector));
        scl := scl + weights[i] * points[i].scalar;
      }
      assert points[..|points|] == points && weights[..|weights|] == weights;
      return Ok(Point(vec, scl));
    }

    /** operator +: the point displaced by `delta` */
    function Plus(delta: Vec3): Point {
      Point(Add(vector, Scale(scalar, delta)), scalar)
    }

    /** operator -: the point displaced by `-delta` */
    function Minus(delta: Vec3): Point {
      Point(Sub(vector, Scale(scalar, delta)), scalar)
    }

    /** operator - between points: the displacement from `base` to this point */
    function Displacement(base: Point): Vec3
      requires scalar != 0.0 && base.scalar != 0.0
    {
      Sub(Position(), base.Position())
    }
  }

  datatype Line = Line(vector: Vec3, moment: Vec3) {

    static const XAxis := Line(UnitX, Zero)
    static const YAxis := Line(UnitY, Zero)
    static const ZAxis := Line(UnitZ, Zero)
    static const InfXY := Line(Zero, UnitZ)
    static const InfYZ := Line(Zero, UnitX)
    static const InfZX := Line(Zero, UnitY)

    /** The line through `point` along `direction` */
    static function Ray(point: Point, direction: Vec3): Line {
      Line(Scale(point.scalar, direction), Cross(point.vector, direction))
    }

    /** The line through two points */
    static function Join(point1: Point, point2: Point): Line {
      Line(Sub(Scale(point1.scalar, point2.vector), Scale(point2.scalar, point1.vector)),
           Cross(point1.vector, point2.vector))
    }

    /** The line where two planes meet */
    static function Meet(plane1: Plane, plane2: Plane): Line {
      Line(Cross(plane1.vector, plane2.vector),
           Sub(Scale(plane1.scalar, plane2.vector), Scale(plane2.scalar, plane1.vector)))
    }

    /** The Pluecker condition v . m == 0 that every real line satisfies */
    predicate IsPlucker() {
      Dot(vector, moment) == 0.0
    }

    /** The point of the line closest to the origin */
    function Origin(): Point {
      Point.FromLine(this)
    }

    /** The reciprocal product v1 . m2 + v2 . m1, the numerator of the distance between two lines */
    function ReciprocalProduct(other: Line): real {
      Dot(vector, other.moment) + Dot(other.vector, moment)
    }

    /** The signed distance to `other`, given the length of v1 x v2 */
    function DistanceToLine(other: Line, crossLength: real): real
      requires crossLength > 0.0 && IsLengthOf(crossLength, Cross(vector, other.vector))
    {
      ReciprocalProduct(other) / crossLength
    }

    /**
     * The foot on this line of the common perpendicular with `other`: this line
     * met with the plane through other's origin whose normal is v2 x (v1 x v2)
     */
    function Project(other: Line): Point {
      var norm := Cross(vector, other.vector);
      var k := Cross(other.vector, norm);
      var plane := Plane.FromPointAndNormal(other.Origin(), k);
      Point.Meet(plane, this)
    }

    static function Lerp(from: Line, to: Line, amount: real): Line {
      Line(Add(Scale(1.0 - amount, from.vector), Scale(amount, to.vector)),
           Add(Scale(1.0 - amount, from.moment), Scale(amount, to.moment)))
    }

    /** The weighted sum of the lines' Pluecker coordinates */
    static function Combination(lines: seq<Line>, weights: seq<real>): Line
      requires |lines| == |weights|
    {
      if |lines| == 0 then Line(Zero, Zero)
      else
        var n := |lines| - 1;
        var rest := Combination(lines[..n], weights[..n]);
        Line(Add(rest.vector, Scale(weights[n], lines[n].vector)),
             Add(rest.moment, Scale(weights[n], lines[n].moment)))
    }

    static method Barycentric(lines: seq<Line>, weights: seq<real>) returns (r: Result<Line>)
      ensures |lines| != |weights| ==> r == Err(CountMismatch("weights"))
      ensures |lines| == |weights| ==> r == Ok(Combination(lines, weights))
    {
      if |lines| != |weights| {
        return Err(CountMismatch("weights"));
      }
      var vec := Zero;
      var mom := Zero;
      for i := 0 to |lines|
        invariant Line(vec, mom) == Combination(lines[..i], weights[..i])
      {
        assert lines[..i + 1][..i] == lines[..i] && weights[..i + 1][..i] == weights[..i];
        vec := Add(vec, Scale(weights[i], lines[i].vector));
        mom := Add(mom, Scale(weights[i], lines[i].moment));
      }
      assert lines[..|lines|] == lines && weights[..|weights|] == weights;
      return Ok(Line(vec, mom));
    }
  }

  datatype Plane = Plane(vector: Vec3, scalar: real) {

    static const XY := Plane(UnitZ, 0.0)
    static const YZ := Plane(UnitX, 0.0)
    static const ZX := Plane(UnitY, 0.0)
    static const Inf := Plane(Zero, 1.0)

    /** The plane through `point` with normal along `normal` */
    static function FromPointAndNormal(point: Point, normal: Vec3): Plane {
      Plane(Scale(point.scalar, normal), -Dot(point.vector, normal))
    }

    /** The plane through `point` farthest from the origin */
    static function FromPoint(point: Point): Plane {
      Plane(Scale(point.scalar, point.vector), -LengthSquared(point.vector))
    }

    /** The plane through `line` farthest from the origin */
    static function FromLine(line: Line): Plane {
      Plane(Cross(line.vector, line.moment), -LengthSquared(line.moment))
    }

    /** The plane with unit normal along `normal` at signed distance `offset` from the origin */
    static function FromNormalAndOffset(normal: Vec3, offset: real, normalLength: real): Plane
      requires normalLength > 0.0 && IsLengthOf(normalLength, normal)
    {
      Plane(Div(normal, normalLength), -offset)
    }

    /** The plane through `point` and `line` */
    static function Join(point: Point, line: Line): Plane {
      Plane(Add(Cross(line.vector, point.vector), Scale(point.scalar, line.moment)),
            -Dot(point.vector, line.moment))
    }

    /** The plane through three points: the first point joined with the line of the other two */
    static function JoinPoints(point1: Point, point2: Point, point3: Point): Plane {
      Join(point1, Line.Join(point2, point3))
    }

    /** The signed distance of the plane from the origin, given the length of its vector */
    function Offset(length: real): real
      requires length > 0.0 && IsLengthOf(length, vector)
    {
      -scalar / length
    }

    /** The point of the plane closest to the origin */
    function Origin(): Point {
      Point.FromPlane(this)
    }

    static function Lerp(from: Plane, to: Plane, amount: real): Plane {
      Plane(Add(Scale(1.0 - amount, from.vector), Scale(amount, to.vector)),
            (1.0 - amount) * from.scalar + amount * to.scalar)
    }

    /** The weighted sum of the planes' homogeneous coordinates */
    static function Combination(planes: seq<Plane>, weights: seq<real>): Plane
      requires |planes| == |weights|
    {
      if |planes| == 0 then Plane(Zero, 0.0)
      else
        var n := |planes| - 1;
        var rest := Combination(planes[..n], weights[..n]);
        Plane(Add(rest.vector, Scale(weights[n], planes[n].vector)),
              rest.scalar + weights[n] * planes[n].scalar)
    }

    static method Barycentric(planes: seq<Plane>, weights: seq<real>) returns (r: Result<Plane>)
      ensures |planes| != |weights| ==> r == Err(CountMismatch("weights"))
      ensures |planes| == |weights| ==> r == Ok(Combination(planes, weights))
    {
      if |planes| != |weights| {
        return Err(CountMismatch("weights"));
      }
      var vec := Zero;
      var scl := 0.0;
      for i := 0 to |planes|
        invariant Plane(vec, scl) == Combination(planes[..i], weights[..i])
      {
        assert planes[..i + 1][..i] == planes[..i] && weights[..i + 1][..i] == weights[..i];
        vec := Add(vec, Scale(weights[i], planes[i].vector));
        scl := scl + weights[i] * planes[i].scalar;
      }
      assert planes[..|planes|] == planes && weights[..|weights|] == weights;
      return Ok(Plane(vec, scl));
    }

    /** operator +: the parallel plane moved by `delta` along its normal, given the vector's length */
    function Plus(delta: real, length: real): Plane
      requires IsLengthOf(length, vector)
    {
      Plane(vector, scalar - delta * length)
    }

    /** operator -: the parallel plane moved by `-delta` along its normal, given the vector's length */
    function Minus(delta: real, length: real): Plane
      requires IsLengthOf(length, vector)
    {
      Plane(vector, scalar + delta * length)
    }
  }
}
