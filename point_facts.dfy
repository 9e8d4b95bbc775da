/** What the constructions and operators of Point promise, proved about the model */
module PointFacts {
  import opened Vectors
  import opened Geometry

  /** A point made from a position is finite with unit weight and gives the position back */
  lemma FromPositionRoundTrip(position: Vec3)
    ensures Point.FromPosition(position).Magnitude() == 1.0
    ensures Point.FromPosition(position).Position() == position
  {
  }

  /** Rescaling the homogeneous coordinates by any non-zero factor keeps the position */
  lemma PositionRescaleInvariant(p: Point, k: real)
    requires p.scalar != 0.0 && k != 0.0
    ensures Point(Scale(k, p.vector), k * p.scalar).Position() == p.Position()
  {
    CancelFactor(k, p.vector.x, p.scalar);
    CancelFactor(k, p.vector.y, p.scalar);
    CancelFactor(k, p.vector.z, p.scalar);
  }

  lemma CancelFactor(k: real, a: real, s: real)
    requires k != 0.0 && s != 0.0
    ensures (k * a) / (k * s) == a / s
  {
  }

  /** The point a plane gives lies on that plane, along the plane's normal from the origin */
  lemma FromPlaneOnPlane(plane: Plane)
    ensures Point.FromPlane(plane).OnPlane(plane)
    ensures Cross(Point.FromPlane(plane).vector, plane.vector) == Zero
    ensures plane.Origin().OnPlane(plane)
  {
    DotLinear(plane.vector, plane.vector, plane.vector, -plane.scalar);
    CrossHomogeneous(plane.vector, plane.vector, -plane.scalar);
    CrossAntiSymmetric(plane.vector, plane.vector);
  }

  /** The distance numerator of a line's closest point is (v . m) v */
  lemma FromLineNumerator(line: Line)
    ensures Point.FromLine(line).LineNumerator(line) == Scale(Dot(line.vector, line.moment), line.vector)
  {
    var v, m := line.vector, line.moment;
    DoubleCross(v, v, m);
    assert Point.FromLine(line).LineNumerator(line)
        == Add(Sub(Scale(Dot(v, m), v), Scale(Dot(v, v), m)), Scale(LengthSquared(v), m));
  }

  /**
   * The point a line gives lies on it exactly when the line satisfies the
   * Pluecker condition, and it is perpendicular to the line's direction
   */
  lemma FromLineOnLine(line: Line)
    ensures line.IsPlucker() ==> Point.FromLine(line).OnLine(line)
    ensures line.vector != Zero ==> (Point.FromLine(line).OnLine(line) <==> line.IsPlucker())
    ensures Dot(line.vector, Point.FromLine(line).vector) == 0.0
    ensures line.IsPlucker() ==> line.Origin().OnLine(line)
  {
    FromLineNumerator(line);
    CrossOrthogonal(line.vector, line.moment);
    if line.vector != Zero {
      ScaleVanishes(Dot(line.vector, line.moment), line.vector);
    }
  }

  /** The meet of a plane and a line lies on the plane */
  lemma MeetOnPlane(plane: Plane, line: Line)
    ensures Point.Meet(plane, line).OnPlane(plane)
  {
    var w, v, m := plane.vector, line.vector, line.moment;
    DotLinear(w, Cross(m, w), Scale(plane.scalar, v), 0.0);
    DotLinear(w, v, v, plane.scalar);
    CrossOrthogonal(m, w);
  }

  /** The distance numerator of the meet with respect to the line is -(v . m) w */
  lemma MeetLineNumerator(plane: Plane, line: Line)
    ensures Point.Meet(plane, line).LineNumerator(line) == Scale(-Dot(line.vector, line.moment), plane.vector)
  {
    var w, v, m := plane.vector, line.vector, line.moment;
    var p := Point.Meet(plane, line);
    calc {
      p.LineNumerator(line);
      Add(Cross(v, Add(Cross(m, w), Scale(plane.scalar, v))), Scale(-Dot(w, v), m));
      { CrossAdditive(v, Cross(m, w), Scale(plane.scalar, v)); }
      Add(Add(Cross(v, Cross(m, w)), Cross(v, Scale(plane.scalar, v))), Scale(-Dot(w, v), m));
      { CrossHomogeneous(v, v, plane.scalar); CrossAntiSymmetric(v, v); }
      Add(Add(Cross(v, Cross(m, w)), Zero), Scale(-Dot(w, v), m));
      { DoubleCross(v, m, w); }
      Add(Add(Sub(Scale(Dot(v, w), m), Scale(Dot(v, m), w)), Zero), Scale(-Dot(w, v), m));
      { DotSymmetric(w, v); }
      Add(Add(Sub(Scale(Dot(v, w), m), Scale(Dot(v, m), w)), Zero), Scale(-Dot(v, w), m));
      { CancelScaled(m, w, Dot(v, w), Dot(v, m)); }
      Scale(-Dot(v, m), w);
    }
  }

  /** (k a - j b) + 0 + (-k) a == -j b */
  lemma CancelScaled(a: Vec3, b: Vec3, k: real, j: real)
    ensures Add(Add(Sub(Scale(k, a), Scale(j, b)), Zero), Scale(-k, a)) == Scale(-j, b)
  {
  }

  /**
   * The meet of a plane and a line lies on the line when the line satisfies
   * the Pluecker condition, and for a proper plane only then
   */
  lemma MeetOnLine(plane: Plane, line: Line)
    ensures line.IsPlucker() ==> Point.Meet(plane, line).OnLine(line)
    ensures plane.vector != Zero ==> (Point.Meet(plane, line).OnLine(line) <==> line.IsPlucker())
  {
    MeetLineNumerator(plane, line);
    if plane.vector != Zero {
      ScaleVanishes(-Dot(line.vector, line.moment), plane.vector);
    }
  }

  /** The meet of three planes lies on each of them */
  lemma MeetPlanesOnAll(plane1: Plane, plane2: Plane, plane3: Plane)
    ensures Point.MeetPlanes(plane1, plane2, plane3).OnPlane(plane1)
    ensures Point.MeetPlanes(plane1, plane2, plane3).OnPlane(plane2)
    ensures Point.MeetPlanes(plane1, plane2, plane3).OnPlane(plane3)
  {
    MeetOnPlane(plane1, Line.Meet(plane2, plane3));
    MeetPlanesOnSecond(plane1, plane2, plane3);
    MeetPlanesOnThird(plane1, plane2, plane3);
  }

  lemma MeetPlanesOnSecond(plane1: Plane, plane2: Plane, plane3: Plane)
    ensures Point.MeetPlanes(plane1, plane2, plane3).OnPlane(plane2)
  {
    var w1, w2, w3 := plane1.vector, plane2.vector, plane3.vector;
    var s1, s2, s3 := plane1.scalar, plane2.scalar, plane3.scalar;
    var v, m := Cross(w2, w3), Sub(Scale(s2, w3), Scale(s3, w2));
    var t := Dot(w1, v);
    assert Point.MeetPlanes(plane1, plane2, plane3) == Point(Add(Cross(m, w1), Scale(s1, v)), -t);
    DotLinear(w2, Cross(m, w1), Scale(s1, v), 0.0);
    MeetCrossedSecond(w1, w2, w3, s2, s3);
    CrossOrthogonal(w2, w3);
    ScaledOrthogonal(w2, v, s1);
    NegProduct(s2, t, t);
  }

  lemma MeetPlanesOnThird(plane1: Plane, plane2: Plane, plane3: Plane)
    ensures Point.MeetPlanes(plane1, plane2, plane3).OnPlane(plane3)
  {
    var w1, w2, w3 := plane1.vector, plane2.vector, plane3.vector;
    var s1, s2, s3 := plane1.scalar, plane2.scalar, plane3.scalar;
    var v, m := Cross(w2, w3), Sub(Scale(s2, w3), Scale(s3, w2));
    var t := Dot(w1, v);
    assert Point.MeetPlanes(plane1, plane2, plane3) == Point(Add(Cross(m, w1), Scale(s1, v)), -t);
    DotLinear(w3, Cross(m, w1), Scale(s1, v), 0.0);
    MeetCrossedThird(w1, w2, w3, s2, s3);
    CrossOrthogonal(w2, w3);
    ScaledOrthogonal(w3, v, s1);
    NegProduct(s3, t, t);
  }

  /** w2 . ((s2 w3 - s3 w2) x w1) == s2 [w1, w2, w3] */
  lemma MeetCrossedSecond(w1: Vec3, w2: Vec3, w3: Vec3, s2: real, s3: real)
    ensures Dot(w2, Cross(Sub(Scale(s2, w3), Scale(s3, w2)), w1)) == s2 * Dot(w1, Cross(w2, w3))
  {
    MeetVectorCrossed(w1, w2, w3, s2, s3);
    DotLinear(w2, Scale(s2, Cross(w3, w1)), Scale(s3, Cross(w2, w1)), 0.0);
    DotLinear(w2, Cross(w3, w1), Cross(w3, w1), s2);
    CrossOrthogonal(w2, w1);
    ScaledOrthogonal(w2, Cross(w2, w1), s3);
    TripleProductCyclic(w1, w2, w3);
  }

  /** w3 . ((s2 w3 - s3 w2) x w1) == s3 [w1, w2, w3] */
  lemma MeetCrossedThird(w1: Vec3, w2: Vec3, w3: Vec3, s2: real, s3: real)
    ensures Dot(w3, Cross(Sub(Scale(s2, w3), Scale(s3, w2)), w1)) == s3 * Dot(w1, Cross(w2, w3))
  {
    MeetVectorCrossed(w1, w2, w3, s2, s3);
    DotLinear(w3, Scale(s2, Cross(w3, w1)), Scale(s3, Cross(w2, w1)), 0.0);
    DotLinear(w3, Cross(w2, w1), Cross(w2, w1), s3);
    CrossOrthogonal(w3, w1);
    ScaledOrthogonal(w3, Cross(w3, w1), s2);
    CrossAntiSymmetric(w1, w2);
    DotNeg(w3, Cross(w1, w2));
    TripleProductCyclic(w1, w2, w3);
    NegProduct(s3, Dot(w3, Cross(w2, w1)), Dot(w1, Cross(w2, w3)));
  }

  /** A vector orthogonal to w stays orthogonal when scaled */
  lemma ScaledOrthogonal(w: Vec3, v: Vec3, k: real)
    requires Dot(w, v) == 0.0
    ensures Dot(w, Scale(k, v)) == 0.0
  {
    DotLinear(w, v, v, k);
    TimesZero(k, Dot(w, v));
  }

  /** (s2 w3 - s3 w2) x w1 == s2 (w3 x w1) - s3 (w2 x w1) */
  lemma MeetVectorCrossed(w1: Vec3, w2: Vec3, w3: Vec3, s2: real, s3: real)
    ensures Cross(Sub(Scale(s2, w3), Scale(s3, w2)), w1) == Sub(Scale(s2, Cross(w3, w1)), Scale(s3, Cross(w2, w1)))
  {
    CrossSubLeft(w1, Scale(s2, w3), Scale(s3, w2));
    CrossHomogeneous(w1, w3, s2);
    CrossHomogeneous(w1, w2, s3);
  }

  /**
   * A point lies on the plane through it with any normal. A fact about Plane kept
   * here because LineFacts, which PlaneFacts imports, needs it for Line.Project.
   */
  lemma ContainsPointAndNormal(point: Point, normal: Vec3)
    ensures point.OnPlane(Plane.FromPointAndNormal(point, normal))
  {
    DotLinear(point.vector, normal, normal, point.scalar);
    TimesNeg(point.scalar, Dot(point.vector, normal));
  }

  /** Interpolating a point with itself gives it back; the ends give the ends */
  lemma LerpProperties(from: Point, to: Point, amount: real)
    ensures Point.Lerp(from, from, amount) == from
    ensures Point.Lerp(from, to, 0.0) == from
    ensures Point.Lerp(from, to, 1.0) == to
  {
  }

  /** Interpolation is the combination of two points with weights 1 - t and t */
  lemma LerpIsCombination(from: Point, to: Point, amount: real)
    ensures Point.Lerp(from, to, amount) == Point.Combination([from, to], [1.0 - amount, amount])
  {
    assert [from, to][..1] == [from] && [1.0 - amount, amount][..1] == [1.0 - amount];
    assert [from][..0] == [] && [1.0 - amount][..0] == [];
    assert Point.Combination([from], [1.0 - amount])
        == Point(Add(Zero, Scale(1.0 - amount, from.vector)), 0.0 + (1.0 - amount) * from.scalar);
    assert Add(Zero, Scale(1.0 - amount, from.vector)) == Scale(1.0 - amount, from.vector);
  }

  /** Combining copies of one point weighs its coordinates by the total weight */
  lemma {:induction false} CombinationOfCopies(point: Point, weights: seq<real>)
    ensures Point.Combination(seq(|weights|, _ => point), weights)
         == Point(Scale(Sum(weights), point.vector), Sum(weights) * point.scalar)
  {
    if |weights| > 0 {
      var n := |weights| - 1;
      assert seq(|weights|, _ => point)[..n] == seq(n, _ => point);
      CombinationOfCopies(point, weights[..n]);
    }
  }

  /** An affine combination (weights summing to one) of copies of a point is that point */
  lemma AffineCombinationOfCopies(point: Point, weights: seq<real>)
    requires Sum(weights) == 1.0
    ensures Point.Combination(seq(|weights|, _ => point), weights) == point
  {
    CombinationOfCopies(point, weights);
  }

  /** Translating forth and back are inverse, keep the weight and move the position by the offset */
  lemma TranslationProperties(p: Point, delta: Vec3)
    ensures p.Plus(delta).Minus(delta) == p
    ensures p.Minus(delta).Plus(delta) == p
    ensures p.Plus(delta).scalar == p.scalar && p.Minus(delta).scalar == p.scalar
    ensures p.scalar != 0.0 ==> p.Plus(delta).Position() == Add(p.Position(), delta)
    ensures p.scalar != 0.0 ==> p.Minus(delta).Position() == Sub(p.Position(), delta)
    ensures p.scalar != 0.0 ==> p.Plus(delta).Displacement(p) == delta
  {
    if p.scalar != 0.0 {
      ShiftQuotient(p.vector.x, p.scalar, delta.x);
      ShiftQuotient(p.vector.y, p.scalar, delta.y);
      ShiftQuotient(p.vector.z, p.scalar, delta.z);
    }
  }

  lemma ShiftQuotient(a: real, s: real, d: real)
    requires s != 0.0
    ensures (a + s * d) / s == a / s + d
    ensures (a - s * d) / s == a / s - d
  {
  }

  /** The signed distance to a plane is the normal's component of the position minus the offset */
  lemma DistanceToPlaneIsNormalComponent(position: Vec3, plane: Plane, length: real)
    requires length > 0.0 && IsLengthOf(length, plane.vector)
    ensures Point.FromPosition(position).DistanceToPlane(plane, length)
         == Dot(Div(plane.vector, length), position) - plane.Offset(length)
  {
    var w, r := plane.vector, position;
    var a := Point.FromPosition(r);
    DivideSum(a.PlaneNumerator(plane), Dot(Div(w, length), r), w.x, w.y, w.z, r.x, r.y, r.z, plane.scalar, length);
  }

  lemma DivideSum(numerator: real, projection: real, wx: real, wy: real, wz: real,
                  rx: real, ry: real, rz: real, s: real, l: real)
    requires l != 0.0
    requires numerator == wx * rx + wy * ry + wz * rz + 1.0 * s
    requires projection == (wx / l) * rx + (wy / l) * ry + (wz / l) * rz
    ensures numerator / (1.0 * l) == projection - (-s / l)
  {
    assert (wx / l) * rx == (wx * rx) / l;
    assert (wy / l) * ry == (wy * ry) / l;
    assert (wz / l) * rz == (wz * rz) / l;
    assert (wx * rx + wy * ry + wz * rz + s) / l == (wx * rx) / l + (wy * ry) / l + (wz * rz) / l + s / l;
  }

}
