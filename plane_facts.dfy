/** What the constructions and operators of Plane promise, proved about the model */
module PlaneFacts {
  import opened Vectors
  import opened Geometry
  import opened PointFacts
  import opened LineFacts

  /**
   * Through a finite point r with normal n the plane is (n, -r . n): a position x
   * lies on it exactly when x - r is orthogonal to n
   */
  lemma FromPointAndNormalFinite(position: Vec3, normal: Vec3, x: Vec3)
    ensures Plane.FromPointAndNormal(Point.FromPosition(position), normal) == Plane(normal, -Dot(position, normal))
    ensures Point.FromPosition(x).OnPlane(Plane.FromPointAndNormal(Point.FromPosition(position), normal))
        <==> Dot(normal, Sub(x, position)) == 0.0
  {
    DotLinear(normal, x, position, 0.0);
    DotSymmetric(position, normal);
  }

  /** The plane a point gives passes through the point */
  lemma FromPointContains(point: Point)
    ensures point.OnPlane(Plane.FromPoint(point))
  {
    DotLinear(point.vector, point.vector, point.vector, point.scalar);
    TimesNeg(point.scalar, LengthSquared(point.vector));
  }

  /**
   * For a finite point at r the plane it gives is at distance |r| from the origin,
   * on the side the point is
   */
  lemma FromPointOffset(position: Vec3, length: real)
    requires length > 0.0 && IsLengthOf(length, position)
    ensures IsLengthOf(length, Plane.FromPoint(Point.FromPosition(position)).vector)
    ensures Plane.FromPoint(Point.FromPosition(position)).Offset(length) == length
  {
    assert Scale(1.0, position) == position;
    SquareOverRoot(length);
  }

  lemma SquareOverRoot(l: real)
    requires l > 0.0
    ensures -(-(l * l)) / l == l
  {
  }

  /**
   * Duality: the point closest to the origin on the plane a point gives is the
   * point itself, its coordinates scaled by f = s |g|^2
   */
  lemma FromPointDual(point: Point)
    ensures Point.FromPlane(Plane.FromPoint(point))
         == Point(Scale(point.scalar * LengthSquared(point.vector), point.vector),
                  (point.scalar * LengthSquared(point.vector)) * point.scalar)
  {
    var s, g := point.scalar, point.vector;
    ScaleTwice(s, -(-LengthSquared(g)), g);
    LengthSquaredScale(s, g);
    DualTerms(s, LengthSquared(g));
  }

  lemma DualTerms(s: real, l: real)
    ensures (-(-l)) * s == s * l
    ensures s * (s * l) == (s * l) * s
  {
  }

  /** ... so a finite point away from the origin comes back at the same position */
  lemma FromPointDualPosition(point: Point)
    requires point.scalar != 0.0 && point.vector != Zero
    ensures Point.FromPlane(Plane.FromPoint(point)).scalar != 0.0
    ensures Point.FromPlane(Plane.FromPoint(point)).Position() == point.Position()
  {
    var f := point.scalar * LengthSquared(point.vector);
    LengthSquaredNonNegative(point.vector);
    NonZeroProduct(point.scalar, LengthSquared(point.vector));
    NonZeroProduct(f, point.scalar);
    FromPointDual(point);
    PositionRescaleInvariant(point, f);
  }

  /**
   * The plane a line gives contains the line's direction, shares its vector with
   * the point the line gives, and contains that point exactly when the line
   * satisfies the Pluecker condition
   */
  lemma FromLineProperties(line: Line)
    ensures Dot(Plane.FromLine(line).vector, line.vector) == 0.0
    ensures Plane.FromLine(line).vector == Point.FromLine(line).vector
    ensures Point.FromLine(line).OnPlane(Plane.FromLine(line)) <==> line.IsPlucker()
  {
    var v, m := line.vector, line.moment;
    CrossOrthogonal(v, m);
    DotSymmetric(Cross(v, m), v);
    Lagrange(v, m);
    TimesNeg(LengthSquared(v), LengthSquared(m));
    assert Point.FromLine(line).PlaneNumerator(Plane.FromLine(line)) == -(Dot(v, m) * Dot(v, m));
    if Point.FromLine(line).OnPlane(Plane.FromLine(line)) {
      SquareVanishes(Dot(v, m));
    }
  }

  /**
   * The plane a Pluecker line gives lies at the distance of the line's origin:
   * with l = |v x m|, the origin is at distance l / |v|^2 and the offset times
   * |v|^2 is l
   */
  lemma FromLineOffset(line: Line, l: real)
    requires line.IsPlucker() && line.vector != Zero
    requires l > 0.0 && IsLengthOf(l, Cross(line.vector, line.moment))
    ensures LengthSquared(line.vector) > 0.0
    ensures Plane.FromLine(line).Offset(l) * LengthSquared(line.vector) == l
  {
    var v, m := line.vector, line.moment;
    Lagrange(v, m);
    LengthSquaredNonNegative(v);
    assert LengthSquared(Cross(v, m)) == LengthSquared(v) * LengthSquared(m);
    QuotientOfRoot(LengthSquared(v), LengthSquared(m), l);
    assert Plane.FromLine(line).Offset(l) == LengthSquared(m) / l;
  }

  /** When l^2 == a b with a, l > 0, (b / l) a == l */
  lemma QuotientOfRoot(a: real, b: real, l: real)
    requires a > 0.0 && l > 0.0 && l * l == a * b
    ensures (b / l) * a == l
  {
    assert (b / l) * a == (a * b) / l;
    assert (l * l) / l == l;
  }

  /** Every point of a line lies on the plane the line gives */
  lemma FromLineContainsLine(line: Line, point: Point)
    requires point.OnLine(line)
    ensures point.OnPlane(Plane.FromLine(line))
  {
    var v, m, g, s := line.vector, line.moment, point.vector, point.scalar;
    assert Cross(v, g) == Neg(Scale(s, m));
    CrossAntiSymmetric(v, g);
    assert Cross(g, v) == Scale(s, m);
    TripleProductCyclic(g, v, m);
    DotSymmetric(Cross(v, m), g);
    DotLinear(m, m, m, s);
    TimesNeg(s, LengthSquared(m));
  }

  /**
   * The plane through a point and a line contains the point, and its normal is
   * orthogonal to the line's direction when the line satisfies the Pluecker condition
   */
  lemma JoinProperties(point: Point, line: Line)
    ensures point.OnPlane(Plane.Join(point, line))
    ensures line.IsPlucker() ==> Dot(Plane.Join(point, line).vector, line.vector) == 0.0
  {
    var v, m, g, s := line.vector, line.moment, point.vector, point.scalar;
    var w := Plane.Join(point, line).vector;
    DotSymmetric(w, g);
    DotLinear(g, Cross(v, g), Scale(s, m), 0.0);
    CrossOrthogonal(v, g);
    DotLinear(g, m, m, s);
    TimesNeg(s, Dot(g, m));
    DotSymmetric(w, v);
    DotLinear(v, Cross(v, g), Scale(s, m), 0.0);
    DotLinear(v, m, m, s);
    if line.IsPlucker() {
      TimesZero(s, Dot(v, m));
    }
  }

  /**
   * The plane through a point and a line contains every finite point of the line.
   * (With v == 0 every point at infinity is on the line but not on the plane.)
   */
  lemma JoinContainsLine(point: Point, line: Line, x: Point)
    requires x.OnLine(line) && x.scalar != 0.0
    ensures x.OnPlane(Plane.Join(point, line))
  {
    var v, m, g, s := line.vector, line.moment, point.vector, point.scalar;
    var y, t := x.vector, x.scalar;
    TangentFacts(v, m, y, t);
    JoinNumerator(v, m, g, s, y, t);
  }

  /** A finite point (y, t) on the line (v, m) has y x v == t m, so y . m == 0 */
  lemma TangentFacts(v: Vec3, m: Vec3, y: Vec3, t: real)
    requires Add(Cross(v, y), Scale(t, m)) == Zero && t != 0.0
    ensures Cross(y, v) == Scale(t, m)
    ensures Dot(y, m) == 0.0
  {
    assert Cross(v, y) == Neg(Scale(t, m));
    CrossAntiSymmetric(v, y);
    CrossOrthogonal(y, v);
    DotLinear(y, m, m, t);
    ProductVanishes(Dot(y, m), t);
  }

  /** With y x v == t m and y . m == 0 the join's plane numerator at (y, t) vanishes */
  lemma JoinNumerator(v: Vec3, m: Vec3, g: Vec3, s: real, y: Vec3, t: real)
    requires Cross(y, v) == Scale(t, m) && Dot(y, m) == 0.0
    ensures Dot(Add(Cross(v, g), Scale(s, m)), y) + t * -Dot(g, m) == 0.0
  {
    TripleProductCyclic(y, v, g);
    DotLinear(g, m, m, t);
    DotSymmetric(Add(Cross(v, g), Scale(s, m)), y);
    DotLinear(y, Cross(v, g), Scale(s, m), 0.0);
    DotLinear(y, m, m, s);
    TimesZero(s, Dot(y, m));
    TimesNeg(t, Dot(g, m));
  }

  /** The plane through three points, written symmetrically: (s1 g2xg3 + s2 g3xg1 + s3 g1xg2, -[g1, g2, g3]) */
  lemma JoinPointsExpanded(point1: Point, point2: Point, point3: Point)
    ensures Plane.JoinPoints(point1, point2, point3)
         == Plane(Add(Add(Scale(point1.scalar, Cross(point2.vector, point3.vector)),
                          Scale(point2.scalar, Cross(point3.vector, point1.vector))),
                      Scale(point3.scalar, Cross(point1.vector, point2.vector))),
                  -Dot(point1.vector, Cross(point2.vector, point3.vector)))
  {
    var g1, g2, g3 := point1.vector, point2.vector, point3.vector;
    var s1, s2, s3 := point1.scalar, point2.scalar, point3.scalar;
    MeetVectorCrossed(g1, g2, g3, s2, s3);
    CrossAntiSymmetric(g1, g2);
    ScaleOverNeg(s3, Cross(g1, g2));
    Rearrange(Scale(s2, Cross(g3, g1)), Scale(s3, Cross(g1, g2)), Scale(s1, Cross(g2, g3)));
  }

  /** (a - (-b)) + c == (c + a) + b */
  lemma Rearrange(a: Vec3, b: Vec3, c: Vec3)
    ensures Add(Sub(a, Neg(b)), c) == Add(Add(c, a), b)
  {
  }

  /** The plane through three points does not change when the points are rotated */
  lemma JoinPointsCyclic(point1: Point, point2: Point, point3: Point)
    ensures Plane.JoinPoints(point1, point2, point3) == Plane.JoinPoints(point2, point3, point1)
  {
    JoinPointsExpanded(point1, point2, point3);
    JoinPointsExpanded(point2, point3, point1);
    TripleProductCyclic(point1.vector, point2.vector, point3.vector);
    AddRotated(Scale(point1.scalar, Cross(point2.vector, point3.vector)),
               Scale(point2.scalar, Cross(point3.vector, point1.vector)),
               Scale(point3.scalar, Cross(point1.vector, point2.vector)));
  }

  lemma AddRotated(a: Vec3, b: Vec3, c: Vec3)
    ensures Add(Add(a, b), c) == Add(Add(b, c), a)
  {
  }

  /** The plane through three points contains each of them */
  lemma JoinPointsContainsAll(point1: Point, point2: Point, point3: Point)
    ensures point1.OnPlane(Plane.JoinPoints(point1, point2, point3))
    ensures point2.OnPlane(Plane.JoinPoints(point1, point2, point3))
    ensures point3.OnPlane(Plane.JoinPoints(point1, point2, point3))
  {
    JoinProperties(point1, Line.Join(point2, point3));
    JoinProperties(point2, Line.Join(point3, point1));
    JoinProperties(point3, Line.Join(point1, point2));
    JoinPointsCyclic(point1, point2, point3);
    JoinPointsCyclic(point2, point3, point1);
  }

  /**
   * The plane from a normal and an offset has a unit normal along the given one
   * and lies at the given signed distance from the origin
   */
  lemma FromNormalAndOffsetProperties(normal: Vec3, offset: real, normalLength: real)
    requires normalLength > 0.0 && IsLengthOf(normalLength, normal)
    ensures IsLengthOf(1.0, Plane.FromNormalAndOffset(normal, offset, normalLength).vector)
    ensures Scale(normalLength, Plane.FromNormalAndOffset(normal, offset, normalLength).vector) == normal
    ensures Plane.FromNormalAndOffset(normal, offset, normalLength).Offset(1.0) == offset
  {
    DivScale(normal, normalLength);
    UnitFromLength(normalLength, normal);
  }

  /** Dividing a vector by its length gives a unit vector */
  lemma UnitFromLength(l: real, n: Vec3)
    requires l > 0.0 && l * l == LengthSquared(n)
    ensures LengthSquared(Div(n, l)) == 1.0
  {
    DivIsScale(n, l);
    LengthSquaredScale(1.0 / l, n);
    InverseSquare(l, LengthSquared(n));
  }

  lemma InverseSquare(l: real, x: real)
    requires l > 0.0 && x == l * l
    ensures (1.0 / l) * ((1.0 / l) * x) == 1.0
  {
  }

  /** A normal that is already of unit length is kept as it is */
  lemma UnitNormal(normal: Vec3, offset: real)
    requires LengthSquared(normal) == 1.0
    ensures Plane.FromNormalAndOffset(normal, offset, 1.0) == Plane(normal, -offset)
  {
  }

  /**
   * Moving a plane along its normal keeps the normal, the two directions undo
   * each other, and the offset changes by the amount moved
   */
  lemma ShiftProperties(plane: Plane, delta: real, length: real)
    requires IsLengthOf(length, plane.vector)
    ensures plane.Plus(delta, length).vector == plane.vector
    ensures plane.Minus(delta, length).vector == plane.vector
    ensures plane.Plus(delta, length).Minus(delta, length) == plane
    ensures plane.Minus(delta, length).Plus(delta, length) == plane
    ensures plane.Plus(delta, length) == plane.Minus(-delta, length)
  {
  }

  lemma ShiftOffset(plane: Plane, delta: real, length: real)
    requires length > 0.0 && IsLengthOf(length, plane.vector)
    ensures plane.Plus(delta, length).Offset(length) == plane.Offset(length) + delta
    ensures plane.Minus(delta, length).Offset(length) == plane.Offset(length) - delta
  {
    ShiftQuotient(-plane.scalar, length, delta);
    assert -(plane.scalar - delta * length) == -plane.scalar + length * delta;
    assert -(plane.scalar + delta * length) == -plane.scalar - length * delta;
  }

  /** Interpolating a plane with itself gives it back; the ends give the ends */
  lemma LerpProperties(from: Plane, to: Plane, amount: real)
    ensures Plane.Lerp(from, from, amount) == from
    ensures Plane.Lerp(from, to, 0.0) == from
    ensures Plane.Lerp(from, to, 1.0) == to
  {
  }

  /** Interpolation is the combination of two planes with weights 1 - t and t */
  lemma LerpIsCombination(from: Plane, to: Plane, amount: real)
    ensures Plane.Lerp(from, to, amount) == Plane.Combination([from, to], [1.0 - amount, amount])
  {
    assert [from, to][..1] == [from] && [1.0 - amount, amount][..1] == [1.0 - amount];
    assert [from][..0] == [] && [1.0 - amount][..0] == [];
    assert Plane.Combination([from], [1.0 - amount])
        == Plane(Add(Zero, Scale(1.0 - amount, from.vector)), 0.0 + (1.0 - amount) * from.scalar);
    assert Add(Zero, Scale(1.0 - amount, from.vector)) == Scale(1.0 - amount, from.vector);
  }

  /** A combination of planes that all contain a point contains it too */
  lemma {:induction false} CombinationThroughPoint(planes: seq<Plane>, weights: seq<real>, point: Point)
    requires |planes| == |weights|
    requires forall i :: 0 <= i < |planes| ==> point.OnPlane(planes[i])
    ensures point.OnPlane(Plane.Combination(planes, weights))
  {
    if |planes| > 0 {
      var n := |planes| - 1;
      CombinationThroughPoint(planes[..n], weights[..n], point);
      PlaneNumeratorLinearInPlane(point, Plane.Combination(planes[..n], weights[..n]), planes[n], weights[n]);
      assert point.OnPlane(planes[n]);
      TimesZero(weights[n], point.PlaneNumerator(planes[n]));
    }
  }

  /** The plane-incidence numerator is linear in the plane */
  lemma PlaneNumeratorLinearInPlane(point: Point, plane1: Plane, plane2: Plane, k: real)
    ensures point.PlaneNumerator(Plane(Add(plane1.vector, Scale(k, plane2.vector)), plane1.scalar + k * plane2.scalar))
         == point.PlaneNumerator(plane1) + k * point.PlaneNumerator(plane2)
  {
    var g, s, w1, w2 := point.vector, point.scalar, plane1.vector, plane2.vector;
    DotSymmetric(Add(w1, Scale(k, w2)), g);
    DotLinear(g, w1, Scale(k, w2), 0.0);
    DotLinear(g, w2, w2, k);
    DotSymmetric(g, w1);
    DotSymmetric(g, w2);
    LinearTerms(Dot(w1, g), Dot(w2, g), s, plane1.scalar, plane2.scalar, k);
  }

  lemma LinearTerms(a1: real, a2: real, s: real, s1: real, s2: real, k: real)
    ensures a1 + k * a2 + s * (s1 + k * s2) == (a1 + s * s1) + k * (a2 + s * s2)
  {
  }

  /** A combination of points that all lie on a plane lies on it too */
  lemma {:induction false} PointCombinationOnPlane(points: seq<Point>, weights: seq<real>, plane: Plane)
    requires |points| == |weights|
    requires forall i :: 0 <= i < |points| ==> points[i].OnPlane(plane)
    ensures Point.Combination(points, weights).OnPlane(plane)
  {
    if |points| > 0 {
      var n := |points| - 1;
      PointCombinationOnPlane(points[..n], weights[..n], plane);
      PlaneNumeratorLinearInPoint(plane, Point.Combination(points[..n], weights[..n]), points[n], weights[n]);
      assert points[n].OnPlane(plane);
      TimesZero(weights[n], points[n].PlaneNumerator(plane));
    }
  }

  /** The plane-incidence numerator is linear in the point */
  lemma PlaneNumeratorLinearInPoint(plane: Plane, point1: Point, point2: Point, k: real)
    ensures Point(Add(point1.vector, Scale(k, point2.vector)), point1.scalar + k * point2.scalar).PlaneNumerator(plane)
         == point1.PlaneNumerator(plane) + k * point2.PlaneNumerator(plane)
  {
    var w, g1, g2 := plane.vector, point1.vector, point2.vector;
    DotLinear(w, g1, Scale(k, g2), 0.0);
    DotLinear(w, g2, g2, k);
    PointLinearTerms(Dot(w, g1), Dot(w, g2), plane.scalar, point1.scalar, point2.scalar, k);
  }

  lemma PointLinearTerms(a1: real, a2: real, s: real, t1: real, t2: real, k: real)
    ensures a1 + k * a2 + (t1 + k * t2) * s == (a1 + t1 * s) + k * (a2 + t2 * s)
  {
  }
}
