/** What the constructions and operators of Line promise, proved about the model */
module LineFacts {
  import opened Vectors
  import opened Geometry
  import opened PointFacts

  /**
   * A ray satisfies the Pluecker condition and passes through its point; from a
   * finite position it has the direction itself and the moment r x d
   */
  lemma RayThroughPoint(point: Point, direction: Vec3)
    ensures Line.Ray(point, direction).IsPlucker()
    ensures point.OnLine(Line.Ray(point, direction))
    ensures Line.Ray(Point.FromPosition(point.vector), direction)
         == Line(direction, Cross(point.vector, direction))
  {
    var s, g, d := point.scalar, point.vector, direction;
    DotLinear(Cross(g, d), d, d, s);
    CrossOrthogonal(g, d);
    assert Dot(d, Cross(g, d)) == Dot(Cross(g, d), d);
    CrossHomogeneous(g, d, s);
    CrossAntiSymmetric(g, d);
    assert Cross(Scale(s, d), g) == Scale(s, Cross(d, g));
  }

  /** The line through two points satisfies the Pluecker condition and passes through both */
  lemma JoinThroughBoth(point1: Point, point2: Point)
    ensures Line.Join(point1, point2).IsPlucker()
    ensures point1.OnLine(Line.Join(point1, point2))
    ensures point2.OnLine(Line.Join(point1, point2))
  {
    JoinIsPlucker(point1, point2);
    JoinThroughFirst(point1, point2);
    JoinThroughFirst(point2, point1);
    JoinSwapped(point1, point2);
    assert point2.LineNumerator(Line.Join(point1, point2))
        == Neg(point2.LineNumerator(Line.Join(point2, point1)));
  }

  lemma JoinIsPlucker(point1: Point, point2: Point)
    ensures Line.Join(point1, point2).IsPlucker()
  {
    CrossDotCombination(point1.vector, point2.vector, point1.scalar, point2.scalar);
  }

  /** (j b - k a) . (a x b) == 0: a combination of two vectors is orthogonal to their cross product */
  lemma CrossDotCombination(a: Vec3, b: Vec3, j: real, k: real)
    ensures Dot(Sub(Scale(j, b), Scale(k, a)), Cross(a, b)) == 0.0
    ensures Dot(Cross(a, b), Sub(Scale(j, b), Scale(k, a))) == 0.0
  {
    var c := Cross(a, b);
    CrossOrthogonal(a, b);
    DotSymmetric(c, a);
    DotSymmetric(c, b);
    DotSymmetric(c, Sub(Scale(j, b), Scale(k, a)));
    DotLinear(c, Scale(j, b), Scale(k, a), 0.0);
    DotLinear(c, b, b, j);
    DotLinear(c, a, a, k);
    TimesZero(j, Dot(c, b));
    TimesZero(k, Dot(c, a));
  }

  lemma JoinThroughFirst(point1: Point, point2: Point)
    ensures point1.OnLine(Line.Join(point1, point2))
  {
    var s1, s2, g1, g2 := point1.scalar, point2.scalar, point1.vector, point2.vector;
    var v := Sub(Scale(s1, g2), Scale(s2, g1));
    CrossAntiSymmetric(g1, v);
    CrossAdditive(g1, Scale(s1, g2), Scale(s2, g1));
    CrossHomogeneous(g1, g2, s1);
    CrossHomogeneous(g1, g1, s2);
    CrossAntiSymmetric(g1, g1);
    assert Cross(v, g1) == Neg(Sub(Scale(s1, Cross(g1, g2)), Scale(s2, Zero)));
    CancelFirst(Cross(g1, g2), s1, s2);
  }

  /** -(j c - k 0) + j c == 0 */
  lemma CancelFirst(c: Vec3, j: real, k: real)
    ensures Add(Neg(Sub(Scale(j, c), Scale(k, Zero))), Scale(j, c)) == Zero
  {
  }

  /** -(j 0 - (-(k c))) + k c == 0 */
  lemma CancelSecond(c: Vec3, j: real, k: real)
    ensures Add(Neg(Sub(Scale(j, Zero), Neg(Scale(k, c)))), Scale(k, c)) == Zero
  {
  }

  /** Joining a point with itself is degenerate, and swapping the points negates the line */
  lemma JoinSwapped(point1: Point, point2: Point)
    ensures Line.Join(point1, point1) == Line(Zero, Zero)
    ensures Line.Join(point2, point1)
         == Line(Neg(Line.Join(point1, point2).vector), Neg(Line.Join(point1, point2).moment))
  {
    CrossAntiSymmetric(point1.vector, point2.vector);
    SubSelf(Scale(point1.scalar, point1.vector));
    SubSwapped(Scale(point1.scalar, point2.vector), Scale(point2.scalar, point1.vector));
  }

  lemma SubSelf(a: Vec3)
    ensures Sub(a, a) == Zero
  {
  }

  lemma SubSwapped(a: Vec3, b: Vec3)
    ensures Sub(b, a) == Neg(Sub(a, b))
  {
  }

  /**
   * The line where two planes meet satisfies the Pluecker condition, its direction
   * lies in both planes, and meeting it with either plane gives the null point,
   * so the line lies in both planes
   */
  lemma MeetInBoth(plane1: Plane, plane2: Plane)
    ensures Line.Meet(plane1, plane2).IsPlucker()
    ensures Dot(Line.Meet(plane1, plane2).vector, plane1.vector) == 0.0
    ensures Dot(Line.Meet(plane1, plane2).vector, plane2.vector) == 0.0
    ensures Point.Meet(plane1, Line.Meet(plane1, plane2)) == Point(Zero, 0.0)
    ensures Point.Meet(plane2, Line.Meet(plane1, plane2)) == Point(Zero, 0.0)
  {
    var w1, w2 := plane1.vector, plane2.vector;
    CrossDotCombination(w1, w2, plane1.scalar, plane2.scalar);
    CrossOrthogonal(w1, w2);
    DotSymmetric(Cross(w1, w2), w1);
    DotSymmetric(Cross(w1, w2), w2);
    MeetWithFirst(plane1, plane2);
    MeetWithSecond(plane1, plane2);
  }

  lemma MeetWithFirst(plane1: Plane, plane2: Plane)
    ensures Point.Meet(plane1, Line.Meet(plane1, plane2)) == Point(Zero, 0.0)
  {
    var s1, s2, w1, w2 := plane1.scalar, plane2.scalar, plane1.vector, plane2.vector;
    var m := Sub(Scale(s1, w2), Scale(s2, w1));
    CrossOrthogonal(w1, w2);
    CrossAntiSymmetric(w1, m);
    CrossAdditive(w1, Scale(s1, w2), Scale(s2, w1));
    CrossHomogeneous(w1, w2, s1);
    CrossHomogeneous(w1, w1, s2);
    CrossAntiSymmetric(w1, w1);
    assert Cross(m, w1) == Neg(Sub(Scale(s1, Cross(w1, w2)), Scale(s2, Zero)));
    CancelFirst(Cross(w1, w2), s1, s2);
  }

  lemma MeetWithSecond(plane1: Plane, plane2: Plane)
    ensures Point.Meet(plane2, Line.Meet(plane1, plane2)) == Point(Zero, 0.0)
  {
    var s1, s2, w1, w2 := plane1.scalar, plane2.scalar, plane1.vector, plane2.vector;
    var m := Sub(Scale(s1, w2), Scale(s2, w1));
    CrossOrthogonal(w1, w2);
    CrossAntiSymmetric(w2, m);
    CrossAdditive(w2, Scale(s1, w2), Scale(s2, w1));
    CrossHomogeneous(w2, w2, s1);
    CrossHomogeneous(w2, w1, s2);
    CrossAntiSymmetric(w2, w2);
    CrossAntiSymmetric(w1, w2);
    ScaleOverNeg(s2, Cross(w1, w2));
    assert Cross(m, w2) == Neg(Sub(Scale(s1, Zero), Neg(Scale(s2, Cross(w1, w2)))));
    CancelSecond(Cross(w1, w2), s1, s2);
  }

  /** The line-incidence numerator against a meet combines the two plane-incidence numerators */
  lemma MeetNumerator(plane1: Plane, plane2: Plane, point: Point)
    ensures point.LineNumerator(Line.Meet(plane1, plane2))
         == Sub(Scale(point.PlaneNumerator(plane1), plane2.vector),
                Scale(point.PlaneNumerator(plane2), plane1.vector))
  {
    var w1, w2, s1, s2 := plane1.vector, plane2.vector, plane1.scalar, plane2.scalar;
    var g, s := point.vector, point.scalar;
    var d1, d2 := Dot(w1, g), Dot(w2, g);
    CrossAntiSymmetric(g, Cross(w1, w2));
    DoubleCross(g, w1, w2);
    DotSymmetric(g, w1);
    DotSymmetric(g, w2);
    SubSwapped(Scale(d2, w1), Scale(d1, w2));
    assert Cross(Cross(w1, w2), g) == Sub(Scale(d1, w2), Scale(d2, w1));
    ScaleOverSub(s, Scale(s1, w2), Scale(s2, w1));
    ScaleTwice(s1, s, w2);
    ScaleTwice(s2, s, w1);
    ScaledSum(d1, s * s1, w2);
    ScaledSum(d2, s * s2, w1);
    assert Scale(s, Sub(Scale(s1, w2), Scale(s2, w1))) == Sub(Scale(s * s1, w2), Scale(s * s2, w1));
    CombineNumerators(Scale(d1, w2), Scale(d2, w1), Scale(s * s1, w2), Scale(s * s2, w1));
    assert point.LineNumerator(Line.Meet(plane1, plane2))
        == Add(Sub(Scale(d1, w2), Scale(d2, w1)), Sub(Scale(s * s1, w2), Scale(s * s2, w1)));
    assert point.PlaneNumerator(plane1) == d1 + s * s1 && point.PlaneNumerator(plane2) == d2 + s * s2;
  }

  /** (a - b) + (c - d) == (a + c) - (b + d) */
  lemma CombineNumerators(a: Vec3, b: Vec3, c: Vec3, d: Vec3)
    ensures Add(Sub(a, b), Sub(c, d)) == Sub(Add(a, c), Add(b, d))
  {
  }

  /**
   * When the two planes are not parallel, a point lies on the line where they
   * meet exactly when it lies on both planes
   */
  lemma MeetIncidence(plane1: Plane, plane2: Plane, point: Point)
    requires Cross(plane1.vector, plane2.vector) != Zero
    ensures point.OnLine(Line.Meet(plane1, plane2)) <==> point.OnPlane(plane1) && point.OnPlane(plane2)
  {
    MeetNumerator(plane1, plane2, point);
    if point.OnLine(Line.Meet(plane1, plane2)) {
      Independent(point.PlaneNumerator(plane1), point.PlaneNumerator(plane2), plane1.vector, plane2.vector);
    }
  }

  /** a w2 - b w1 vanishes only with both coefficients when w1 x w2 != 0 */
  lemma Independent(a: real, b: real, w1: Vec3, w2: Vec3)
    requires Cross(w1, w2) != Zero
    requires Sub(Scale(a, w2), Scale(b, w1)) == Zero
    ensures a == 0.0 && b == 0.0
  {
    var u := Sub(Scale(a, w2), Scale(b, w1));
    CrossAdditive(w1, Scale(a, w2), Scale(b, w1));
    CrossHomogeneous(w1, w2, a);
    CrossHomogeneous(w1, w1, b);
    CrossAntiSymmetric(w1, w1);
    assert Cross(w1, u) == Scale(a, Cross(w1, w2)) by {
      assert Cross(w1, u) == Sub(Scale(a, Cross(w1, w2)), Scale(b, Zero));
    }
    assert Cross(w1, Zero) == Zero;
    ScaleVanishes(a, Cross(w1, w2));
    CrossAdditive(w2, Scale(a, w2), Scale(b, w1));
    CrossHomogeneous(w2, w2, a);
    CrossHomogeneous(w2, w1, b);
    CrossAntiSymmetric(w2, w2);
    CrossAntiSymmetric(w1, w2);
    assert Cross(w2, u) == Scale(b, Cross(w1, w2)) by {
      assert Cross(w2, u) == Sub(Scale(a, Zero), Scale(b, Cross(w2, w1)));
    }
    assert Cross(w2, Zero) == Zero;
    ScaleVanishes(b, Cross(w1, w2));
  }

  /**
   * The reciprocal product (numerator of the distance between lines) is symmetric,
   * and a line's product with itself is twice its Pluecker product
   */
  lemma ReciprocalProductSymmetric(line1: Line, line2: Line)
    ensures line1.ReciprocalProduct(line2) == line2.ReciprocalProduct(line1)
    ensures line1.ReciprocalProduct(line1) == 2.0 * Dot(line1.vector, line1.moment)
    ensures line1.ReciprocalProduct(line1) == 0.0 <==> line1.IsPlucker()
  {
  }

  /** The distance between two lines does not depend on their order */
  lemma DistanceToLineSymmetric(line1: Line, line2: Line, crossLength: real)
    requires crossLength > 0.0 && IsLengthOf(crossLength, Cross(line1.vector, line2.vector))
    ensures IsLengthOf(crossLength, Cross(line2.vector, line1.vector))
    ensures line1.DistanceToLine(line2, crossLength) == line2.DistanceToLine(line1, crossLength)
  {
    CrossAntiSymmetric(line1.vector, line2.vector);
  }

  /**
   * For rays from two positions the reciprocal product is the separation of the
   * positions projected on the common normal d1 x d2
   */
  lemma RayReciprocalProduct(position1: Vec3, direction1: Vec3, position2: Vec3, direction2: Vec3)
    ensures Line.Ray(Point.FromPosition(position1), direction1)
              .ReciprocalProduct(Line.Ray(Point.FromPosition(position2), direction2))
         == Dot(Sub(position1, position2), Cross(direction1, direction2))
  {
    var r1, d1, r2, d2 := position1, direction1, position2, direction2;
    RayThroughPoint(Point.FromPosition(r1), d1);
    RayThroughPoint(Point.FromPosition(r2), d2);
    TripleProductCyclic(d1, r2, d2);
    TripleProductCyclic(d2, r1, d1);
    CrossAntiSymmetric(d1, d2);
    DotLinear(r2, Cross(d1, d2), Cross(d1, d2), -1.0);
    assert Dot(r2, Neg(Cross(d1, d2))) == -Dot(r2, Cross(d1, d2)) by {
      assert Neg(Cross(d1, d2)) == Scale(-1.0, Cross(d1, d2));
    }
    assert Dot(Sub(r1, r2), Cross(d1, d2)) == Dot(r1, Cross(d1, d2)) - Dot(r2, Cross(d1, d2)) by {
      assert Dot(Sub(r1, r2), Cross(d1, d2)) == Dot(Cross(d1, d2), Sub(r1, r2));
      DotLinear(Cross(d1, d2), r1, r2, 0.0);
      assert Dot(Cross(d1, d2), r1) == Dot(r1, Cross(d1, d2));
      assert Dot(Cross(d1, d2), r2) == Dot(r2, Cross(d1, d2));
    }
  }

  /** Two rays from one point have a zero reciprocal product: lines that meet are at distance zero */
  lemma RaysFromCommonPoint(point: Point, direction1: Vec3, direction2: Vec3)
    ensures Line.Ray(point, direction1).ReciprocalProduct(Line.Ray(point, direction2)) == 0.0
  {
    var s, g, d1, d2 := point.scalar, point.vector, direction1, direction2;
    DotLinear(Cross(g, d2), d1, d1, s);
    DotLinear(Cross(g, d1), d2, d2, s);
    assert Dot(Scale(s, d1), Cross(g, d2)) == s * Dot(Cross(g, d2), d1);
    assert Dot(Scale(s, d2), Cross(g, d1)) == s * Dot(Cross(g, d1), d2);
    TripleProductCyclic(d1, g, d2);
    TripleProductCyclic(d2, g, d1);
    CrossAntiSymmetric(d2, d1);
    assert Dot(d1, Cross(g, d2)) == Dot(Cross(g, d2), d1);
    assert Dot(d2, Cross(g, d1)) == Dot(Cross(g, d1), d2);
    assert Dot(g, Cross(d2, d1)) == -Dot(g, Cross(d1, d2));
  }

  /**
   * The projection of `other` onto a line lies on the line (for a Pluecker line)
   * and on the plane through other's origin spanned by other's direction and the
   * common normal v1 x v2
   */
  lemma ProjectOnBoth(line: Line, other: Line)
    ensures line.IsPlucker() ==> line.Project(other).OnLine(line)
    ensures line.Project(other).OnPlane(
              Plane.FromPointAndNormal(other.Origin(), Cross(other.vector, Cross(line.vector, other.vector))))
    ensures other.Origin().OnPlane(
              Plane.FromPointAndNormal(other.Origin(), Cross(other.vector, Cross(line.vector, other.vector))))
    ensures Dot(Cross(other.vector, Cross(line.vector, other.vector)), other.vector) == 0.0
    ensures Dot(Cross(other.vector, Cross(line.vector, other.vector)), Cross(line.vector, other.vector)) == 0.0
  {
    var k := Cross(other.vector, Cross(line.vector, other.vector));
    var plane := Plane.FromPointAndNormal(other.Origin(), k);
    MeetOnPlane(plane, line);
    MeetOnLine(plane, line);
    ContainsPointAndNormal(other.Origin(), k);
    CrossOrthogonal(other.vector, Cross(line.vector, other.vector));
    assert Dot(k, other.vector) == Dot(other.vector, k);
    assert Dot(k, Cross(line.vector, other.vector)) == Dot(Cross(line.vector, other.vector), k);
  }

  /** Interpolating a line with itself gives it back; the ends give the ends */
  lemma LerpProperties(from: Line, to: Line, amount: real)
    ensures Line.Lerp(from, from, amount) == from
    ensures Line.Lerp(from, to, 0.0) == from
    ensures Line.Lerp(from, to, 1.0) == to
  {
  }

  /** Interpolation is the combination of two lines with weights 1 - t and t */
  lemma LerpIsCombination(from: Line, to: Line, amount: real)
    ensures Line.Lerp(from, to, amount) == Line.Combination([from, to], [1.0 - amount, amount])
  {
    assert [from, to][..1] == [from] && [1.0 - amount, amount][..1] == [1.0 - amount];
    assert [from][..0] == [] && [1.0 - amount][..0] == [];
    assert Line.Combination([from], [1.0 - amount])
        == Line(Add(Zero, Scale(1.0 - amount, from.vector)), Add(Zero, Scale(1.0 - amount, from.moment)));
    assert Add(Zero, Scale(1.0 - amount, from.vector)) == Scale(1.0 - amount, from.vector);
    assert Add(Zero, Scale(1.0 - amount, from.moment)) == Scale(1.0 - amount, from.moment);
  }

  /** A combination of lines that all pass through a point passes through it too */
  lemma {:induction false} CombinationThroughPoint(lines: seq<Line>, weights: seq<real>, point: Point)
    requires |lines| == |weights|
    requires forall i :: 0 <= i < |lines| ==> point.OnLine(lines[i])
    ensures point.OnLine(Line.Combination(lines, weights))
  {
    if |lines| > 0 {
      var n := |lines| - 1;
      CombinationThroughPoint(lines[..n], weights[..n], point);
      var rest := Line.Combination(lines[..n], weights[..n]);
      var last := lines[n];
      LineNumeratorLinear(point, rest, last, weights[n]);
      assert point.OnLine(last);
    }
  }

  /** The line-incidence numerator is linear in the line */
  lemma LineNumeratorLinear(point: Point, line1: Line, line2: Line, k: real)
    ensures point.LineNumerator(Line(Add(line1.vector, Scale(k, line2.vector)), Add(line1.moment, Scale(k, line2.moment))))
         == Add(point.LineNumerator(line1), Scale(k, point.LineNumerator(line2)))
  {
    var g, s := point.vector, point.scalar;
    var v1, v2, m1, m2 := line1.vector, line2.vector, line1.moment, line2.moment;
    CrossAntiSymmetric(g, Add(v1, Scale(k, v2)));
    CrossAdditive(g, v1, Scale(k, v2));
    CrossHomogeneous(g, v2, k);
    CrossAntiSymmetric(g, v1);
    CrossAntiSymmetric(g, v2);
    ScaleOverAdd(s, m1, Scale(k, m2));
    ScaleTwice(k, s, m2);
    ScaleOverAdd(k, Neg(Cross(g, v2)), Scale(s, m2));
    ScaleOverNeg(k, Cross(g, v2));
    ScaleTwice(s, k, m2);
    assert s * k == k * s;
    Regroup(Cross(g, v1), Scale(k, Cross(g, v2)), Scale(s, m1), Scale(s * k, m2));
  }

  /** -(x + y) + (p + q) == (-x + p) + (-y + q) */
  lemma Regroup(x: Vec3, y: Vec3, p: Vec3, q: Vec3)
    ensures Add(Neg(Add(x, y)), Add(p, q)) == Add(Add(Neg(x), p), Add(Neg(y), q))
  {
  }
}
