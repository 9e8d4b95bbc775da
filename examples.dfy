/**
 * The configurations of the repository's unit tests, stated for every value of
 * the numbers the tests fix (the tests' own numbers are one instance each).
 * Each construction is taken one step at a time, every step with its result.
 */
module Examples {
  import opened Vectors
  import opened Geometry
  import PlaneFacts

  // ---------------------------------------------------------------- points

  /** The point of the plane x = c nearest the origin is (c, 0, 0) */
  lemma FromAxisPlane(c: real)
    ensures Point.FromPlane(Plane.FromNormalAndOffset(UnitX, c, 1.0)) == Point(Vec3(c, 0.0, 0.0), 1.0)
    ensures Point.FromPlane(Plane.FromNormalAndOffset(UnitX, c, 1.0)).Position() == Vec3(c, 0.0, 0.0)
  {
    PlaneX(c);
  }

  lemma ShiftedOrigin(delta: Vec3)
    ensures Point.Origin.Plus(delta) == Point(delta, 1.0)
  {
  }

  lemma AlongX(c: real)
    ensures Scale(c, UnitX) == Vec3(c, 0.0, 0.0)
  {
  }

  lemma AlongY(c: real)
    ensures Scale(c, UnitY) == Vec3(0.0, c, 0.0)
  {
  }

  lemma AlongZ(c: real)
    ensures Scale(c, UnitZ) == Vec3(0.0, 0.0, c)
  {
  }

  lemma VerticalRay(c: real)
    ensures Line.Ray(Point(Vec3(c, 0.0, 0.0), 1.0), UnitZ) == Line(UnitZ, Vec3(0.0, -c, 0.0))
  {
  }

  /** The point of the vertical line through (c, 0, 0) nearest the origin is (c, 0, 0) */
  lemma FromVerticalLine(c: real)
    ensures Point.FromLine(Line.Ray(Point.Origin.Plus(Scale(c, UnitX)), UnitZ)) == Point(Vec3(c, 0.0, 0.0), 1.0)
    ensures Point.FromLine(Line.Ray(Point.Origin.Plus(Scale(c, UnitX)), UnitZ)).Position() == Vec3(c, 0.0, 0.0)
  {
    AlongX(c);
    ShiftedOrigin(Vec3(c, 0.0, 0.0));
    VerticalRay(c);
  }

  lemma RayFromOrigin(d: Vec3)
    ensures Line.Ray(Point.Origin, d) == Line(d, Zero)
  {
  }

  /** The ray from the origin along d meets the plane y = c at (c / d.y) d */
  lemma MeetLevelPlane(c: real, d: Vec3)
    requires d.y != 0.0
    ensures Point.Meet(Plane.FromNormalAndOffset(UnitY, c, 1.0), Line.Ray(Point.Origin, d)) == Point(Scale(-c, d), -d.y)
    ensures Point.Meet(Plane.FromNormalAndOffset(UnitY, c, 1.0), Line.Ray(Point.Origin, d)).Position() == Scale(c / d.y, d)
  {
    PlaneY(c);
    RayFromOrigin(d);
    assert Point.Meet(Plane(UnitY, -c), Line(d, Zero)) == Point(Scale(-c, d), -d.y);
    NegativeQuotient(c, d.y, d.x);
    NegativeQuotient(c, d.y, d.y);
    NegativeQuotient(c, d.y, d.z);
  }

  lemma NegativeQuotient(c: real, q: real, t: real)
    requires q != 0.0
    ensures (-c * t) / -q == (c / q) * t
  {
  }

  /**
   * The ray from the origin along (1, k, 0) (SlopedDirection: x + k y) meets
   * the plane y = k at (1, k, 0)
   */
  lemma MeetSlopedRay(k: real)
    requires k != 0.0
    ensures var p := Point.Meet(Plane.FromNormalAndOffset(UnitY, k, 1.0), Line.Ray(Point.Origin, Vec3(1.0, k, 0.0)));
      p.scalar != 0.0 && p.Position() == Vec3(1.0, k, 0.0)
  {
    MeetLevelPlane(k, Vec3(1.0, k, 0.0));
    ScaleByOne(k, Vec3(1.0, k, 0.0));
  }

  lemma SlopedDirection(k: real)
    ensures Add(UnitX, Scale(k, UnitY)) == Vec3(1.0, k, 0.0)
  {
    AlongY(k);
  }

  lemma ScaleByOne(k: real, d: Vec3)
    requires k != 0.0
    ensures Scale(k / k, d) == d
  {
    assert k / k == 1.0;
  }

  lemma UnitLengths()
    ensures LengthSquared(UnitX) == 1.0
    ensures LengthSquared(UnitY) == 1.0
    ensures LengthSquared(UnitZ) == 1.0
  {
  }

  /** The plane with unit normal x at offset a is x = a */
  lemma PlaneX(a: real)
    ensures Plane.FromNormalAndOffset(UnitX, a, 1.0) == Plane(UnitX, -a)
  {
    UnitLengths();
    PlaneFacts.UnitNormal(UnitX, a);
  }

  /** The plane with unit normal y at offset b is y = b */
  lemma PlaneY(b: real)
    ensures Plane.FromNormalAndOffset(UnitY, b, 1.0) == Plane(UnitY, -b)
  {
    UnitLengths();
    PlaneFacts.UnitNormal(UnitY, b);
  }

  /** The plane with unit normal z at offset c is z = c */
  lemma PlaneZ(c: real)
    ensures Plane.FromNormalAndOffset(UnitZ, c, 1.0) == Plane(UnitZ, -c)
  {
    UnitLengths();
    PlaneFacts.UnitNormal(UnitZ, c);
  }

  lemma MeetYZ(b: real, c: real)
    ensures Line.Meet(Plane(UnitY, -b), Plane(UnitZ, -c)) == Line(UnitX, Vec3(0.0, c, -b))
  {
  }

  lemma MeetX(a: real, b: real, c: real)
    ensures Point.Meet(Plane(UnitX, -a), Line(UnitX, Vec3(0.0, c, -b))) == Point(Vec3(-a, -b, -c), -1.0)
  {
  }

  lemma MeetAxisPlanesPoint(a: real, b: real, c: real)
    ensures Point.MeetPlanes(Plane(UnitX, -a), Plane(UnitY, -b), Plane(UnitZ, -c)) == Point(Vec3(-a, -b, -c), -1.0)
  {
    MeetYZ(b, c);
    MeetX(a, b, c);
  }

  lemma PositionOfNegated(p: Point, a: real, b: real, c: real)
    requires p == Point(Vec3(-a, -b, -c), -1.0)
    ensures p.scalar != 0.0 && p.Position() == Vec3(a, b, c)
  {
  }

  /** The planes x = a, y = b and z = c (PlaneX, PlaneY, PlaneZ) meet at (a, b, c) */
  lemma MeetAxisPlanes(a: real, b: real, c: real)
    ensures var p := Point.MeetPlanes(Plane(UnitX, -a), Plane(UnitY, -b), Plane(UnitZ, -c));
      p.scalar != 0.0 && p.Position() == Vec3(a, b, c)
  {
    MeetAxisPlanesPoint(a, b, c);
    PositionOfNegated(Point.MeetPlanes(Plane(UnitX, -a), Plane(UnitY, -b), Plane(UnitZ, -c)), a, b, c);
  }

  /** The signed distance of any position from the plane z = c is its height above it */
  lemma DistanceToLevelPlane(r: Vec3, c: real)
    ensures Point.FromPosition(r).DistanceToPlane(Plane.FromNormalAndOffset(UnitZ, c, 1.0), 1.0) == r.z - c
  {
    PlaneZ(c);
    assert Point.FromPosition(r).PlaneNumerator(Plane(UnitZ, -c)) == r.z - c;
  }

  lemma AxisRays(c: real)
    ensures Line.Ray(Point.FromPosition(Vec3(c, 0.0, 0.0)), UnitX) == Line(UnitX, Zero)
    ensures Line.Ray(Point.FromPosition(Vec3(c, 0.0, 0.0)), UnitY) == Line(UnitY, Vec3(0.0, 0.0, c))
    ensures Line.Ray(Point.FromPosition(Vec3(c, 0.0, 0.0)), UnitZ) == Line(UnitZ, Vec3(0.0, -c, 0.0))
  {
  }

  /**
   * A position (x, 0, 0) lies on the line along x through (c, 0, 0), and the
   * distance numerators to the lines along z and along y through (c, 0, 0)
   * have length |c - x|.
   */
  lemma DistanceToAxisLines(x: real, c: real)
    ensures Point.FromPosition(Vec3(x, 0.0, 0.0)).OnLine(Line.Ray(Point.FromPosition(Vec3(c, 0.0, 0.0)), UnitX))
    ensures Point.FromPosition(Vec3(x, 0.0, 0.0)).LineNumerator(Line.Ray(Point.FromPosition(Vec3(c, 0.0, 0.0)), UnitZ))
         == Vec3(0.0, x - c, 0.0)
    ensures Point.FromPosition(Vec3(x, 0.0, 0.0)).LineNumerator(Line.Ray(Point.FromPosition(Vec3(c, 0.0, 0.0)), UnitY))
         == Vec3(0.0, 0.0, c - x)
    ensures LengthSquared(Vec3(0.0, x - c, 0.0)) == (c - x) * (c - x)
    ensures LengthSquared(Vec3(0.0, 0.0, c - x)) == (c - x) * (c - x)
  {
    AxisRays(c);
  }

  // ----------------------------------------------------------------- lines

  /** The line through (a, b, c) and (a, b - d, c) */
  lemma JoinAlongY(a: real, b: real, c: real, d: real)
    ensures Line.Join(Point.FromPosition(Vec3(a, b, c)), Point.FromPosition(Vec3(a, b - d, c)))
         == Line(Vec3(0.0, -d, 0.0), Vec3(c * d, 0.0, -(a * d)))
  {
    JoinTerms(a, b, c, d);
  }

  lemma JoinTerms(a: real, b: real, c: real, d: real)
    ensures b * c - c * (b - d) == c * d
    ensures c * a - a * c == 0.0
    ensures a * (b - d) - b * a == -(a * d)
  {
  }

  lemma OriginAlongY(a: real, c: real, d: real)
    ensures Line(Vec3(0.0, -d, 0.0), Vec3(c * d, 0.0, -(a * d))).Origin() == Point(Vec3(a * (d * d), 0.0, c * (d * d)), d * d)
  {
  }

  lemma Cancel(a: real, q: real)
    requires q != 0.0
    ensures (a * q) / q == a
    ensures -(a * q) / -q == a
  {
  }

  lemma CancelProduct(a: real, d: real, e: real)
    requires d != 0.0 && e != 0.0
    ensures d * e != 0.0
    ensures (a * (d * e)) / (d * e) == a
    ensures -(a * (d * e)) / -(d * e) == a
  {
  }

  /** A point whose coordinates carry the positive factor d e has the position they have without it */
  lemma PositionOfScaled(p: Point, a: real, c: real, d: real, e: real)
    requires d > 0.0 && e > 0.0 && p == Point(Vec3(a * (d * e), 0.0, c * (d * e)), d * e)
    ensures p.scalar > 0.0 && p.Position() == Vec3(a, 0.0, c)
  {
    CancelProduct(a, d, e);
    CancelProduct(c, d, e);
  }

  /**
   * The line through (a, b, c) and (a, b - d, c), with d > 0, runs along -y
   * and passes nearest the origin at (a, 0, c)
   */
  lemma JoinOrigin(a: real, b: real, c: real, d: real)
    requires d > 0.0
    ensures Line.Join(Point.FromPosition(Vec3(a, b, c)), Point.FromPosition(Vec3(a, b - d, c))).vector
         == Scale(d, Neg(UnitY))
    ensures var origin := Line.Join(Point.FromPosition(Vec3(a, b, c)), Point.FromPosition(Vec3(a, b - d, c))).Origin();
      origin.scalar > 0.0 && origin.Position() == Vec3(a, 0.0, c)
  {
    JoinAlongY(a, b, c, d);
    OriginAlongY(a, c, d);
    PositionOfScaled(Line.Join(Point.FromPosition(Vec3(a, b, c)), Point.FromPosition(Vec3(a, b - d, c))).Origin(),
                     a, c, d, d);
  }

  /** The line where the planes z = c and y = b meet runs along -x through (0, b, c) */
  lemma MeetZY(b: real, c: real)
    ensures Line.Meet(Plane(UnitZ, -c), Plane(UnitY, -b))
         == Line(Neg(UnitX), Vec3(0.0, -c, b))
    ensures Line.Meet(Plane(UnitZ, -c), Plane(UnitY, -b)).Origin()
         == Point(Vec3(0.0, b, c), 1.0)
  {
  }

  /** The line where the planes y = b and x = a meet runs along -z through (a, b, 0) */
  lemma MeetYX(a: real, b: real)
    ensures Line.Meet(Plane(UnitY, -b), Plane(UnitX, -a))
         == Line(Neg(UnitZ), Vec3(-b, a, 0.0))
    ensures Line.Meet(Plane(UnitY, -b), Plane(UnitX, -a)).Origin()
         == Point(Vec3(a, b, 0.0), 1.0)
  {
  }

  /** The line where the planes x = a and z = c meet runs along -y through (a, 0, c) */
  lemma MeetXZ(a: real, c: real)
    ensures Line.Meet(Plane(UnitX, -a), Plane(UnitZ, -c))
         == Line(Neg(UnitY), Vec3(c, 0.0, -a))
    ensures Line.Meet(Plane(UnitX, -a), Plane(UnitZ, -c)).Origin()
         == Point(Vec3(a, 0.0, c), 1.0)
  {
  }

  lemma VerticalRayThrough(p: real, q: real, r: real)
    ensures Line.Ray(Point.FromPosition(Vec3(p, q, r)), UnitZ) == Line(UnitZ, Vec3(q, -p, 0.0))
  {
  }

  lemma SkewLinesTerms(a: real, c: real, d: real, p: real, q: real)
    requires d > 0.0
    ensures Line(Vec3(0.0, -d, 0.0), Vec3(c * d, 0.0, -(a * d))).ReciprocalProduct(Line(UnitZ, Vec3(q, -p, 0.0))) == d * (p - a)
    ensures Cross(Vec3(0.0, -d, 0.0), UnitZ) == Vec3(-d, 0.0, 0.0)
    ensures IsLengthOf(d, Vec3(-d, 0.0, 0.0))
    ensures (d * (p - a)) / d == p - a
  {
    NegProduct(d, -d, d);
  }

  /**
   * The line through (a, b, c) and (a, b - d, c), d > 0, and the vertical line
   * through (p, q, r): the length of v1 x v2 is d, and the signed
   * distance between the lines is p - a.
   */
  lemma SkewLinesDistance(a: real, b: real, c: real, d: real, p: real, q: real, r: real)
    requires d > 0.0
    ensures IsLengthOf(d, Cross(Line.Join(Point.FromPosition(Vec3(a, b, c)), Point.FromPosition(Vec3(a, b - d, c))).vector,
                                      Line.Ray(Point.FromPosition(Vec3(p, q, r)), UnitZ).vector))
    ensures Line.Join(Point.FromPosition(Vec3(a, b, c)), Point.FromPosition(Vec3(a, b - d, c)))
              .DistanceToLine(Line.Ray(Point.FromPosition(Vec3(p, q, r)), UnitZ), d)
         == p - a
  {
    JoinAlongY(a, b, c, d);
    VerticalRayThrough(p, q, r);
    SkewLinesTerms(a, c, d, p, q);
  }

  lemma ProjectPlane(a: real, c: real, d: real, p: real, q: real)
    ensures Line(UnitZ, Vec3(q, -p, 0.0)).Origin() == Point(Vec3(p, q, 0.0), 1.0)
    ensures Cross(UnitZ, Cross(Vec3(0.0, -d, 0.0), UnitZ)) == Vec3(0.0, -d, 0.0)
    ensures Plane.FromPointAndNormal(Point(Vec3(p, q, 0.0), 1.0), Vec3(0.0, -d, 0.0)) == Plane(Vec3(0.0, -d, 0.0), d * q)
  {
  }

  lemma ProjectMeet(a: real, c: real, d: real, q: real)
    ensures Point.Meet(Plane(Vec3(0.0, -d, 0.0), d * q), Line(Vec3(0.0, -d, 0.0), Vec3(c * d, 0.0, -(a * d))))
         == Point(Vec3(-(a * (d * d)), -(q * (d * d)), -(c * (d * d))), -(d * d))
  {
  }

  lemma ProjectOfSkewLines(a: real, c: real, d: real, p: real, q: real)
    ensures Line(Vec3(0.0, -d, 0.0), Vec3(c * d, 0.0, -(a * d))).Project(Line(UnitZ, Vec3(q, -p, 0.0)))
         == Point(Vec3(-(a * (d * d)), -(q * (d * d)), -(c * (d * d))), -(d * d))
  {
    ProjectPlane(a, c, d, p, q);
    ProjectMeet(a, c, d, q);
  }

  /** A point whose coordinates carry the negative factor -(d e) has the position they have without it */
  lemma PositionOfNegScaled(point: Point, a: real, b: real, c: real, d: real, e: real)
    requires d > 0.0 && e > 0.0 && point == Point(Vec3(-(a * (d * e)), -(b * (d * e)), -(c * (d * e))), -(d * e))
    ensures point.scalar < 0.0 && point.Position() == Vec3(a, b, c)
  {
    CancelProduct(a, d, e);
    CancelProduct(b, d, e);
    CancelProduct(c, d, e);
  }

  /** The point of the line through (a, b, c) and (a, b - d, c) nearest the vertical line through (p, q, r) is (a, q, c) */
  lemma SkewLinesProject(a: real, b: real, c: real, d: real, p: real, q: real, r: real)
    requires d > 0.0
    ensures var point := Line.Join(Point.FromPosition(Vec3(a, b, c)), Point.FromPosition(Vec3(a, b - d, c)))
                           .Project(Line.Ray(Point.FromPosition(Vec3(p, q, r)), UnitZ));
      point.scalar < 0.0 && point.Position() == Vec3(a, q, c)
  {
    JoinAlongY(a, b, c, d);
    VerticalRayThrough(p, q, r);
    ProjectOfSkewLines(a, c, d, p, q);
    PositionOfNegScaled(Line.Join(Point.FromPosition(Vec3(a, b, c)), Point.FromPosition(Vec3(a, b - d, c)))
                          .Project(Line.Ray(Point.FromPosition(Vec3(p, q, r)), UnitZ)), a, q, c, d, d);
  }

  // ---------------------------------------------------------------- planes

  lemma VerticalNormalPlane(g: Vec3, k: real)
    ensures Plane.FromPointAndNormal(Point.FromPosition(g), Scale(k, UnitZ)) == Plane(Vec3(0.0, 0.0, k), -(g.z * k))
  {
    AlongZ(k);
  }

  /** The plane through (x, y, z) with normal k z, k > 0, has magnitude k, unit normal z and offset z */
  lemma FromPointAndVerticalNormal(g: Vec3, k: real)
    requires k > 0.0
    ensures Plane.FromPointAndNormal(Point.FromPosition(g), Scale(k, UnitZ)) == Plane(Vec3(0.0, 0.0, k), -(g.z * k))
    ensures IsLengthOf(k, Vec3(0.0, 0.0, k))
    ensures Plane(Vec3(0.0, 0.0, k), -(g.z * k)).Offset(k) == g.z
    ensures Div(Vec3(0.0, 0.0, k), k) == UnitZ
  {
    VerticalNormalPlane(g, k);
    Cancel(g.z, k);
    assert -(-(g.z * k)) == g.z * k;
  }

  lemma HorizontalRay(b: real)
    ensures Line.Ray(Point.Origin.Plus(Scale(b, UnitY)), UnitX) == Line(UnitX, Vec3(0.0, 0.0, -b))
  {
    AlongY(b);
    ShiftedOrigin(Vec3(0.0, b, 0.0));
  }

  lemma JoinHorizontal(g: Vec3, b: real, line: Line)
    requires g.y == b && line == Line(UnitX, Vec3(0.0, 0.0, -b))
    ensures Plane.Join(Point.FromPosition(g), line) == Plane(Vec3(0.0, -g.z, 0.0), b * g.z)
  {
  }

  lemma JoinLevelPlane(x: real, b: real, h: real)
    ensures Plane.Join(Point.FromPosition(Vec3(x, b, h)), Line.Ray(Point.Origin.Plus(Scale(b, UnitY)), UnitX))
         == Plane(Vec3(0.0, -h, 0.0), b * h)
  {
    HorizontalRay(b);
    JoinHorizontal(Vec3(x, b, h), b, Line.Ray(Point.Origin.Plus(Scale(b, UnitY)), UnitX));
  }

  lemma LevelNormal(h: real)
    requires h > 0.0
    ensures IsLengthOf(h, Vec3(0.0, -h, 0.0))
  {
  }

  lemma LevelNormalDirection(h: real)
    requires h > 0.0
    ensures Div(Vec3(0.0, -h, 0.0), h) == Neg(UnitY)
  {
    assert -h / h == -1.0;
  }

  lemma LevelOffset(b: real, h: real)
    requires h > 0.0
    ensures Plane(Vec3(0.0, -h, 0.0), b * h).Offset(h) == -b
  {
    LevelNormal(h);
    Cancel(b, h);
  }

  /**
   * The plane through (x, b, h), h > 0, and the line along x through
   * (0, b, 0) is y = b, with normal -y and offset -b.
   */
  lemma JoinPointAndHorizontalLine(x: real, b: real, h: real)
    requires h > 0.0
    ensures Plane.Join(Point.FromPosition(Vec3(x, b, h)), Line.Ray(Point.Origin.Plus(Scale(b, UnitY)), UnitX))
         == Plane(Vec3(0.0, -h, 0.0), b * h)
    ensures IsLengthOf(h, Vec3(0.0, -h, 0.0))
    ensures Div(Vec3(0.0, -h, 0.0), h) == Neg(UnitY)
    ensures Plane(Vec3(0.0, -h, 0.0), b * h).Offset(h) == -b
  {
    JoinLevelPlane(x, b, h);
    LevelNormal(h);
    LevelNormalDirection(h);
    LevelOffset(b, h);
  }

  lemma LowerJoinTerms(a: real, b: real, d: real, e: real, h: real)
    ensures (b - d) * h - h * b == -(d * h)
    ensures h * (a - e) - a * h == -(e * h)
    ensures a * b - (b - d) * (a - e) == b * e + a * d - d * e
  {
  }

  /** The line through (a, b - d, h) and (a - e, b, h) */
  lemma LowerJoin(a: real, b: real, d: real, e: real, h: real)
    ensures Line.Join(Point.FromPosition(Vec3(a, b - d, h)), Point.FromPosition(Vec3(a - e, b, h)))
         == Line(Vec3(-e, d, 0.0), Vec3(-(d * h), -(e * h), b * e + a * d - d * e))
  {
    LowerJoinTerms(a, b, d, e, h);
  }

  lemma UpperJoinTerms(a: real, b: real, d: real, e: real, h: real)
    ensures d * h - 0.0 * b + 1.0 * -(d * h) == 0.0
    ensures 0.0 * a - (-e) * h + 1.0 * -(e * h) == 0.0
    ensures (-e) * b - d * a + 1.0 * (b * e + a * d - d * e) == -(d * e)
    ensures -(a * -(d * h) + b * -(e * h) + h * (b * e + a * d - d * e)) == h * (d * e)
  {
  }

  /** The plane through (a, b, h) and that line */
  lemma UpperJoin(a: real, b: real, d: real, e: real, h: real)
    ensures Plane.Join(Point.FromPosition(Vec3(a, b, h)),
                       Line(Vec3(-e, d, 0.0), Vec3(-(d * h), -(e * h), b * e + a * d - d * e)))
         == Plane(Vec3(0.0, 0.0, -(d * e)), h * (d * e))
  {
    UpperJoinTerms(a, b, d, e, h);
  }

  lemma DownwardNormal(q: real)
    requires q > 0.0
    ensures IsLengthOf(q, Vec3(0.0, 0.0, -q))
  {
  }

  lemma DownwardNormalDirection(q: real)
    requires q > 0.0
    ensures Div(Vec3(0.0, 0.0, -q), q) == Neg(UnitZ)
  {
    assert -q / q == -1.0;
  }

  lemma HeightOffset(q: real, h: real)
    requires q > 0.0
    ensures Plane(Vec3(0.0, 0.0, -q), h * q).Offset(q) == -h
  {
    DownwardNormal(q);
    Cancel(h, q);
  }

  /** The plane with vector -q z, q > 0, and scalar h q is z = h: unit normal -z, offset -h */
  lemma DownwardPlane(plane: Plane, q: real, h: real)
    requires q > 0.0 && plane == Plane(Vec3(0.0, 0.0, -q), h * q)
    ensures IsLengthOf(q, plane.vector)
    ensures Div(plane.vector, q) == Neg(UnitZ)
    ensures plane.Offset(q) == -h
  {
    DownwardNormal(q);
    DownwardNormalDirection(q);
    HeightOffset(q, h);
  }

  /**
   * The plane through (a, b, h), (a, b - d, h) and (a - e, b, h) has vector
   * -(d e) z and scalar h (d e): for d e > 0 the plane z = h of DownwardPlane.
   */
  lemma JoinPointsAtHeight(a: real, b: real, d: real, e: real, h: real)
    ensures Plane.JoinPoints(Point.FromPosition(Vec3(a, b, h)), Point.FromPosition(Vec3(a, b - d, h)),
                             Point.FromPosition(Vec3(a - e, b, h)))
         == Plane(Vec3(0.0, 0.0, -(d * e)), h * (d * e))
  {
    LowerJoin(a, b, d, e, h);
    UpperJoin(a, b, d, e, h);
  }

  lemma PositiveProduct(d: real, e: real)
    requires d > 0.0 && e > 0.0
    ensures d * e > 0.0
  {
  }

  /** JoinPointsAtHeight followed by DownwardPlane, with the product d e named q */
  lemma LevelJoinAtProduct(a: real, b: real, d: real, e: real, h: real, q: real)
    requires d > 0.0 && e > 0.0 && q == d * e
    ensures var plane := Plane.JoinPoints(Point.FromPosition(Vec3(a, b, h)), Point.FromPosition(Vec3(a, b - d, h)),
                                          Point.FromPosition(Vec3(a - e, b, h)));
      q > 0.0 && IsLengthOf(q, plane.vector) && Div(plane.vector, q) == Neg(UnitZ) && plane.Offset(q) == -h
  {
    JoinPointsAtHeight(a, b, d, e, h);
    PositiveProduct(d, e);
    DownwardPlane(Plane.JoinPoints(Point.FromPosition(Vec3(a, b, h)), Point.FromPosition(Vec3(a, b - d, h)),
                                   Point.FromPosition(Vec3(a - e, b, h))), q, h);
  }

  /**
   * The plane through (a, b, h), (a, b - d, h) and (a - e, b, h), with d, e > 0,
   * is z = h: its vector has length d e, its unit normal is -z and its offset -h.
   * (Split through LevelJoinAtProduct to keep each proof obligation small.)
   */
  lemma JoinPointsAtHeightLevel(a: real, b: real, d: real, e: real, h: real)
    requires d > 0.0 && e > 0.0
    ensures var plane := Plane.JoinPoints(Point.FromPosition(Vec3(a, b, h)), Point.FromPosition(Vec3(a, b - d, h)),
                                          Point.FromPosition(Vec3(a - e, b, h)));
      d * e > 0.0 && IsLengthOf(d * e, plane.vector) && Div(plane.vector, d * e) == Neg(UnitZ)
      && plane.Offset(d * e) == -h
  {
    LevelJoinAtProduct(a, b, d, e, h, d * e);
  }
}
