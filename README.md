# Koyo.Geometry projective core in Dafny

This project models the projective-geometry algebra of the `JA.Geometry`
namespace of Koyo.Geometry: the three immutable value classes `Point`, `Line`
and `Plane`.

- **`Point`**: a homogeneous 4-tuple (vector g, scalar g0).
- **`Plane`**: a homogeneous 4-tuple (vector w, scalar w0).
- **`Line`**: a Pluecker 6-tuple (vector v, moment m).

All the constructions are modelled, exactly as the C# writes them:

- join and meet;
- the duality constructions (`FromPlane`, `FromLine`, `FromPoint`);
- `Ray` and `FromPointAndNormal`;
- `Lerp` and `Barycentric`;
- the translation operators;
- `Line.Project(Line)`.

The model proves the incidence facts the code's formulas are built to satisfy.

Layout:

- `results.dfy` (module `Results`): the error outcome. It stands for the
  `ArgumentException` that `Barycentric` throws.
- `vectors.dfy` (module `Vectors`): `Vec3` over `real`, with the
  `System.Numerics.Vector3` operations the core uses (`+`, `-`, scaling,
  division by a scalar, `Dot`, `Cross`, `LengthSquared`). It also holds the
  identities of these operations: the triple product, the double cross
  product and Lagrange's identity.
- `geometry.dfy` (module `Geometry`): the three datatypes.
  - The static factories are static members.
  - The properties are functions.
  - The three `Barycentric` are methods with the source's accumulating loop.
  - The classes refer to each other cyclically, so they share one module.
- `point_facts.dfy`, `line_facts.dfy`, `plane_facts.dfy`: the properties of
  each class.
- `examples.dfy`: the configurations of the repository's unit tests. Each is
  stated for a family of values that contains the test's own, under each
  lemma's `requires`.

The incidence predicates are the numerators of the source's distance formulas:

- `Point.OnPlane`: `w . g + g0 w0 == 0`.
- `Point.OnLine`: `v x g + g0 m == 0`.
- `Line.IsPlucker`: `v . m == 0`.

Some members need a Euclidean length (`Vector3.Length`, `Normalize`). These
take that length as an extra argument. `Geometry.IsLengthOf` constrains the
argument to be the non-negative square root of the squared length.

## Model

| member | source | states |
|---|---|---|
| Geometry.Point.Barycentric | Koyo.Geometry/Geometry/Point.cs:83-97 | when the counts differ the result is the argument error on `weights`; otherwise it is the sum of the weighted vectors and the sum of the weighted scalars (`Combination`), which the loop accumulates |
| Geometry.Line.Barycentric | Koyo.Geometry/Geometry/Line.cs:79-93 | argument error on a count mismatch; otherwise the weighted sums of the vectors and of the moments |
| Geometry.Plane.Barycentric | Koyo.Geometry/Geometry/Plane.cs:73-87 | argument error on a count mismatch; otherwise the weighted sums of the vectors and of the scalars |
| PointFacts.FromPositionRoundTrip | Koyo.Geometry/Geometry/Point.cs:22-25 | a point built from a position has magnitude 1, and its position is that position |
| PointFacts.PositionRescaleInvariant | Koyo.Geometry/Geometry/Point.cs:63 | scaling both homogeneous coordinates by any nonzero factor leaves the position unchanged |
| PointFacts.FromPlaneOnPlane | Koyo.Geometry/Geometry/Point.cs:31-34 | the point of a plane nearest the origin lies on that plane, and its vector is parallel to the plane's normal; so `Plane.Origin` (Plane.cs:56-59) lies on its plane |
| PointFacts.FromLineNumerator | Koyo.Geometry/Geometry/Point.cs:36-39 | the line-distance numerator of `FromLine(L)` against L is (v . m) v |
| PointFacts.FromLineOnLine | Koyo.Geometry/Geometry/Point.cs:36-39 | `FromLine(L)` lies on L when v . m == 0; for v != 0, it lies on L exactly when v . m == 0; its vector is orthogonal to v; so `Line.Origin` (Line.cs:52-55) lies on a Pluecker line |
| PointFacts.MeetOnPlane | Koyo.Geometry/Geometry/Point.cs:50-55 | the meet of a plane and a line always lies on the plane |
| PointFacts.MeetLineNumerator | Koyo.Geometry/Geometry/Point.cs:50-55 | the meet's line-distance numerator is -(v . m) w |
| PointFacts.MeetOnLine | Koyo.Geometry/Geometry/Point.cs:50-55 | the meet lies on the line when v . m == 0; for w != 0, it lies on the line exactly when v . m == 0 |
| PointFacts.MeetPlanesOnAll | Koyo.Geometry/Geometry/Point.cs:57-60 | the meet of three planes lies on each of the three |
| PointFacts.ContainsPointAndNormal | Koyo.Geometry/Geometry/Plane.cs:17-20 | the plane built from a point and a normal contains that point |
| PointFacts.LerpProperties | Koyo.Geometry/Geometry/Point.cs:79-81 | `Lerp(X, X, t) == X`, `Lerp(a, b, 0) == a`, `Lerp(a, b, 1) == b` |
| PointFacts.LerpIsCombination | Koyo.Geometry/Geometry/Point.cs:79-81 | `Lerp` is the barycentric combination of the two points with weights 1 - t and t |
| PointFacts.CombinationOfCopies | Koyo.Geometry/Geometry/Point.cs:83-97 | combining copies of one point scales both its coordinates by the sum of the weights |
| PointFacts.AffineCombinationOfCopies | Koyo.Geometry/Geometry/Point.cs:83-97 | with weights summing to 1, combining copies of a point gives that point |
| PlaneFacts.PointCombinationOnPlane | Koyo.Geometry/Geometry/Point.cs:83-97 | any combination of points that lie on a plane lies on that plane |
| PointFacts.TranslationProperties | Koyo.Geometry/Geometry/Point.cs:99-105 | `+ d` and `- d` undo each other and keep the scalar; for a finite point they move the position by +d and -d; the difference of points then gives back d |
| PointFacts.DistanceToPlaneIsNormalComponent | Koyo.Geometry/Geometry/Point.cs:69-72 | the signed distance from a finite position to a plane is the unit normal's component of the position minus the plane's offset |
| LineFacts.RayThroughPoint | Koyo.Geometry/Geometry/Line.cs:27-31 | a ray satisfies v . m == 0 and passes through its point; from a finite point its vector is the direction and its moment is position x direction |
| LineFacts.JoinThroughBoth | Koyo.Geometry/Geometry/Line.cs:33-38 | the join of two points satisfies v . m == 0 and passes through both points |
| LineFacts.JoinSwapped | Koyo.Geometry/Geometry/Line.cs:33-38 | the join of a point with itself is all zero; swapping the two points negates both vector and moment |
| LineFacts.MeetInBoth | Koyo.Geometry/Geometry/Line.cs:40-45 | the meet of two planes satisfies v . m == 0; its vector is orthogonal to both plane vectors; meeting it with either plane gives the all-zero point, so it lies in both |
| LineFacts.MeetNumerator | Koyo.Geometry/Geometry/Line.cs:40-45 | a point's line-distance numerator against the meet is its two plane numerators crossed with the planes' vectors |
| LineFacts.MeetIncidence | Koyo.Geometry/Geometry/Line.cs:40-45 | when the planes are not parallel, a point is on their meet exactly when it is on both planes |
| LineFacts.ReciprocalProductSymmetric | Koyo.Geometry/Geometry/Line.cs:59-62 | the numerator v1 . m2 + v2 . m1 of the distance between two lines is symmetric; a line against itself gives 2 v . m, which is zero exactly when v . m == 0 |
| LineFacts.DistanceToLineSymmetric | Koyo.Geometry/Geometry/Line.cs:59-62 | the distance between two lines does not depend on their order |
| LineFacts.RayReciprocalProduct | Koyo.Geometry/Geometry/Line.cs:59-62 | for rays from two finite points the numerator is (r1 - r2) . (d1 x d2) |
| LineFacts.RaysFromCommonPoint | Koyo.Geometry/Geometry/Line.cs:59-62 | two rays through the same point have numerator 0, so they are at distance 0 |
| LineFacts.ProjectOnBoth | Koyo.Geometry/Geometry/Line.cs:67-73 | `Project(other)` lies on this line when v . m == 0; it lies on the plane through other's origin with normal v2 x (v1 x v2); that normal is orthogonal to v2 and to v1 x v2 |
| LineFacts.LerpProperties | Koyo.Geometry/Geometry/Line.cs:75-77 | `Lerp(L, L, t) == L`, `Lerp(a, b, 0) == a`, `Lerp(a, b, 1) == b` |
| LineFacts.LerpIsCombination | Koyo.Geometry/Geometry/Line.cs:75-77 | `Lerp` is the barycentric combination with weights 1 - t and t |
| LineFacts.CombinationThroughPoint | Koyo.Geometry/Geometry/Line.cs:79-93 | any combination of lines through a common point passes through that point |
| PlaneFacts.FromPointAndNormalFinite | Koyo.Geometry/Geometry/Plane.cs:17-20 | from a finite point p the plane is (n, -p . n); a position x lies on it exactly when n . (x - p) == 0 |
| PlaneFacts.FromPointContains | Koyo.Geometry/Geometry/Plane.cs:23-26 | the plane built from a point contains that point |
| PlaneFacts.FromPointOffset | Koyo.Geometry/Geometry/Plane.cs:23-26 | the offset of the plane built from a position equals the position's length |
| PlaneFacts.FromPointDual | Koyo.Geometry/Geometry/Plane.cs:23-26 | `Point.FromPlane(Plane.FromPoint(p))` is p scaled by g0 |g|^2 |
| PlaneFacts.FromPointDualPosition | Koyo.Geometry/Geometry/Plane.cs:23-26 | for a finite point not at the origin, that dual point has the same position as p |
| PlaneFacts.FromLineProperties | Koyo.Geometry/Geometry/Plane.cs:28-31 | the plane built from a line has a vector orthogonal to the line's direction, equal to `Point.FromLine`'s vector; it contains `Point.FromLine(L)` exactly when v . m == 0 |
| PlaneFacts.FromLineOffset | Koyo.Geometry.Tests/Geometry/PlaneTests.cs:74-86 | for a Pluecker line with v != 0, the offset of the plane it gives, times the squared length of v, is the length of v x m: the plane lies at the line's distance from the origin |
| PlaneFacts.FromLineContainsLine | Koyo.Geometry/Geometry/Plane.cs:28-31 | every point on the line lies on the plane built from it |
| PlaneFacts.FromNormalAndOffsetProperties | Koyo.Geometry/Geometry/Plane.cs:38-39 | the plane's vector is the unit normal along `normal`, and its offset is `offset` |
| PlaneFacts.UnitNormal | Koyo.Geometry/Geometry/Plane.cs:38-39 | for a unit normal the plane is (normal, -offset) |
| PlaneFacts.JoinProperties | Koyo.Geometry/Geometry/Plane.cs:41-46 | the join of a point and a line contains the point; its vector is orthogonal to the line's direction when v . m == 0 |
| PlaneFacts.JoinContainsLine | Koyo.Geometry/Geometry/Plane.cs:41-46 | the join of a point and a line contains every finite point of the line, so with `JoinProperties` it contains both the point and the line |
| PlaneFacts.JoinPointsExpanded | Koyo.Geometry/Geometry/Plane.cs:48-51 | the join of three points has vector g1 (g2 x g3) + g2 (g3 x g1) + g3 (g1 x g2) and scalar -g1 . (g2 x g3) |
| PlaneFacts.JoinPointsCyclic | Koyo.Geometry/Geometry/Plane.cs:48-51 | the join of three points is unchanged by a cyclic rotation of the points |
| PlaneFacts.JoinPointsContainsAll | Koyo.Geometry/Geometry/Plane.cs:48-51 | the join of three points contains all three |
| PlaneFacts.ShiftProperties | Koyo.Geometry/Geometry/Plane.cs:89-92 | `+ d` and `- d` keep the vector and undo each other, and `+ d` equals `- (-d)` |
| PlaneFacts.ShiftOffset | Koyo.Geometry/Geometry/Plane.cs:89-92 | `+ d` adds d to the offset and `- d` subtracts it |
| PlaneFacts.LerpProperties | Koyo.Geometry/Geometry/Plane.cs:69-71 | `Lerp(W, W, t) == W`, `Lerp(a, b, 0) == a`, `Lerp(a, b, 1) == b` |
| PlaneFacts.LerpIsCombination | Koyo.Geometry/Geometry/Plane.cs:69-71 | `Lerp` is the barycentric combination with weights 1 - t and t |
| PlaneFacts.CombinationThroughPoint | Koyo.Geometry/Geometry/Plane.cs:73-87 | any combination of planes through a common point passes through that point |
| Examples.FromAxisPlane | Koyo.Geometry.Tests/Geometry/PointTests.cs:46-53 | the point of the plane x = c nearest the origin is (c, 0, 0) |
| Examples.ShiftedOrigin | Koyo.Geometry.Tests/Geometry/PointTests.cs:58 | the origin displaced by d is the finite point at d |
| Examples.FromVerticalLine | Koyo.Geometry.Tests/Geometry/PointTests.cs:55-62 | the point of the vertical ray through (c, 0, 0) nearest the origin is (c, 0, 0) |
| Examples.MeetLevelPlane | Koyo.Geometry.Tests/Geometry/PointTests.cs:64-72 | the plane y = c meets the ray from the origin along d (d.y != 0) at (c / d.y) d |
| Examples.SlopedDirection | Koyo.Geometry.Tests/Geometry/PointTests.cs:68 | x + k y is (1, k, 0) |
| Examples.MeetSlopedRay | Koyo.Geometry.Tests/Geometry/PointTests.cs:64-72 | the plane y = k meets the ray from the origin along (1, k, 0) at (1, k, 0) |
| Examples.PlaneX | Koyo.Geometry.Tests/Geometry/PointTests.cs:77 | the plane with normal x and offset a is (x, -a) |
| Examples.PlaneY | Koyo.Geometry.Tests/Geometry/PointTests.cs:78 | the plane with normal y and offset b is (y, -b) |
| Examples.PlaneZ | Koyo.Geometry.Tests/Geometry/PointTests.cs:79 | the plane with normal z and offset c is (z, -c) |
| Examples.MeetAxisPlanesPoint | Koyo.Geometry.Tests/Geometry/PointTests.cs:74-84 | the planes x = a, y = b, z = c meet in the homogeneous point ((-a, -b, -c), -1) |
| Examples.MeetAxisPlanes | Koyo.Geometry.Tests/Geometry/PointTests.cs:74-84 | the position of that point is exactly (a, b, c) |
| Examples.DistanceToLevelPlane | Koyo.Geometry.Tests/Geometry/PointTests.cs:107-119 | the signed distance from position r to the plane z = c is r.z - c |
| Examples.AxisRays | Koyo.Geometry.Tests/Geometry/PointTests.cs:130-133 | the three axis rays through (c, 0, 0), in Pluecker coordinates |
| Examples.DistanceToAxisLines | Koyo.Geometry.Tests/Geometry/PointTests.cs:121-138 | (x, 0, 0) lies on the x ray through (c, 0, 0); its distance numerators to the z and y rays have squared length (c - x)^2 |
| Examples.JoinAlongY | Koyo.Geometry.Tests/Geometry/LineTests.cs:46-57 | the line through (a, b, c) and (a, b - d, c) is ((0, -d, 0), (c d, 0, -a d)) |
| Examples.JoinOrigin | Koyo.Geometry.Tests/Geometry/LineTests.cs:46-57 | for d > 0 that line runs along -y, and its origin has position (a, 0, c) |
| Examples.MeetZY | Koyo.Geometry.Tests/Geometry/LineTests.cs:70-71 | the planes z = c and y = b meet in a line along -x whose origin is (0, b, c) |
| Examples.MeetYX | Koyo.Geometry.Tests/Geometry/LineTests.cs:73-74 | the planes y = b and x = a meet in a line along -z whose origin is (a, b, 0) |
| Examples.MeetXZ | Koyo.Geometry.Tests/Geometry/LineTests.cs:76-77 | the planes x = a and z = c meet in a line along -y whose origin is (a, 0, c) |
| Examples.VerticalRayThrough | Koyo.Geometry.Tests/Geometry/LineTests.cs:122 | the vertical ray through (p, q, r) is (z, (q, -p, 0)) |
| Examples.SkewLinesDistance | Koyo.Geometry.Tests/Geometry/LineTests.cs:117-128 | the line through (a, b, c) and (a, b - d, c) is at signed distance p - a from the vertical ray through (p, q, r); here v1 x v2 has length d |
| Examples.ProjectOfSkewLines | Koyo.Geometry/Geometry/Line.cs:67-73 | the homogeneous point `Project` builds for that pair of lines |
| Examples.SkewLinesProject | Koyo.Geometry.Tests/Geometry/LineTests.cs:130-133 | that projection has position exactly (a, q, c) |
| Examples.FromPointAndVerticalNormal | Koyo.Geometry.Tests/Geometry/PlaneTests.cs:37-49 | the plane through g with normal k z (k > 0) has vector length k, unit normal z and offset g.z |
| Examples.HorizontalRay | Koyo.Geometry.Tests/Geometry/PlaneTests.cs:110 | the ray along x through the origin displaced by b y is (x, (0, 0, -b)) |
| Examples.JoinPointAndHorizontalLine | Koyo.Geometry.Tests/Geometry/PlaneTests.cs:106-115 | the plane through (x, b, h) (h > 0) and that ray is ((0, -h, 0), b h), with unit normal -y and offset -b |
| Examples.JoinPointsAtHeight | Koyo.Geometry.Tests/Geometry/PlaneTests.cs:117-124 | the plane through (a, b, h), (a, b - d, h) and (a - e, b, h) is ((0, 0, -d e), h d e) |
| Examples.DownwardPlane | Koyo.Geometry.Tests/Geometry/PlaneTests.cs:126-127 | the plane ((0, 0, -q), h q), q > 0, has vector length q, unit normal -z and offset -h |
| Examples.JoinPointsAtHeightLevel | Koyo.Geometry.Tests/Geometry/PlaneTests.cs:117-128 | for d, e > 0 the plane through those three points has vector length d e, unit normal -z and offset -h; the test's points give normal -z and offset -1 |

## Left out

- `Disk.cs` is not part of this model. Its containment and intersection tests
  rest on square roots, normalisation and fixed float tolerances.
- `Program.cs` is not part of this model. It is a demonstration driver that
  only writes output.
- Formatting (`ToString`) is left out because it is presentation only.
- Single-precision floating point is modelled by the reals. Rounding, NaN and
  infinities are not modelled. Where the source would divide by zero, the model
  requires a nonzero divisor instead, as in `Position` and the distance
  quotients.
- C# arrays are modelled as sequences. The implicit conversion from `Vector3`
  is `Point.FromPosition`.
- The members that need a square root are left out:
  - `Magnitude`, `Direction` and `Offset` of `Line`;
  - `Magnitude` and `Normal` of `Plane`;
  - `Point.Offset`;
  - `Point.DistanceTo(Point)`;
  - `Point.DistanceTo(Line)`: only its numerator vector `LineNumerator` is modelled;
  - `Line.Along`, `Line.DistanceTo(Point)`, `Line.Project(Point)`;
  - `Plane.Project`.
- `Plane.DistanceTo(Point)` only calls `Point.DistanceTo(Plane)`, which is
  modelled as `Point.DistanceToPlane`; it has no member of its own.
- The unit tests on randomly sampled inputs become lemmas over the inputs their
  `requires` admit. The tests of the length-only members listed above are left
  out with them.
- Geometry.Point.DistanceToPlane: takes the length of the plane's vector as an
  argument constrained by `IsLengthOf` instead of computing `Vector3.Length`.
- Geometry.Line.DistanceToLine: takes the length of v1 x v2 as an argument
  constrained by `IsLengthOf`; the reals have no square root to compute it.
- Geometry.Plane.FromNormalAndOffset: takes the length of `normal` as an
  argument and divides by it, in place of `Vector3.Normalize`.
- Geometry.Plane.Offset: takes the length of the plane's vector as an argument.
- Geometry.Plane.Plus and Geometry.Plane.Minus: take the length of the plane's
  vector as an argument.
- Geometry.Line.Meet: writes the moment as w2 s1 - w1 s2 rather than the
  source's -w1 s2 + w2 s1; the two are equal over the reals.
- Examples.DistanceToAxisLines: the source asserts the unsigned distance
  10 - x. The model states the numerator and its squared length (c - x)^2,
  since the length is a square root.
- Examples.MeetSlopedRay: needs k != 0. For k == 0 the ray along x lies in
  the plane y = 0, so the meet is the all-zero tuple and its position divides
  0 by 0.
