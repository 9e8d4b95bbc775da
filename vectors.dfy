/**
 * Three-component vectors over the reals, standing in for System.Numerics.Vector3,
 * with the dot and cross products and the identities of vector algebra the
 * geometry proofs rest on.
 */
module Vectors {

  datatype Vec3 = Vec3(x: real, y: real, z: real)

  const Zero := Vec3(0.0, 0.0, 0.0)
  const UnitX := Vec3(1.0, 0.0, 0.0)
  const UnitY := Vec3(0.0, 1.0, 0.0)
  const UnitZ := Vec3(0.0, 0.0, 1.0)

  function Add(a: Vec3, b: Vec3): Vec3 {
    Vec3(a.x + b.x, a.y + b.y, a.z + b.z)
  }

  function Sub(a: Vec3, b: Vec3): Vec3 {
    Vec3(a.x - b.x, a.y - b.y, a.z - b.z)
  }

  function Neg(a: Vec3): Vec3 {
    Vec3(-a.x, -a.y, -a.z)
  }

  /** The product k * a of a scalar and a vector */
  function Scale(k: real, a: Vec3): Vec3 {
    Vec3(k * a.x, k * a.y, k * a.z)
  }

  /** Component-wise division a / k */
  function Div(a: Vec3, k: real): Vec3
    requires k != 0.0
  {
    Vec3(a.x / k, a.y / k, a.z / k)
  }

  function Dot(a: Vec3, b: Vec3): real {
    a.x * b.x + a.y * b.y + a.z * b.z
  }

  function Cross(a: Vec3, b: Vec3): Vec3 {
    Vec3(a.y * b.z - a.z * b.y, a.z * b.x - a.x * b.z, a.x * b.y - a.y * b.x)
  }

  function LengthSquared(a: Vec3): real {
    Dot(a, a)
  }

  function Sum(xs: seq<real>): real {
    if |xs| == 0 then 0.0 else Sum(xs[..|xs| - 1]) + xs[|xs| - 1]
  }

  /** Dividing by k and scaling by k undo each other */
  lemma DivScale(a: Vec3, k: real)
    requires k != 0.0
    ensures Scale(k, Div(a, k)) == a
    ensures Div(Scale(k, a), k) == a
  {
  }

  /** Dividing by k is scaling by 1 / k */
  lemma DivIsScale(a: Vec3, k: real)
    requires k != 0.0
    ensures Div(a, k) == Scale(1.0 / k, a)
  {
  }

  lemma LengthSquaredNonNegative(a: Vec3)
    ensures LengthSquared(a) >= 0.0
    ensures LengthSquared(a) == 0.0 <==> a == Zero
  {
    SumOfSquares(a.x, a.y, a.z);
  }

  lemma SumOfSquares(p: real, q: real, r: real)
    ensures p * p + q * q + r * r >= 0.0
    ensures p * p + q * q + r * r == 0.0 <==> p == 0.0 && q == 0.0 && r == 0.0
  {
    SquareNonNegative(p);
    SquareNonNegative(q);
    SquareNonNegative(r);
    if p * p + q * q + r * r == 0.0 {
      SquareVanishes(p);
      SquareVanishes(q);
      SquareVanishes(r);
    }
  }

  lemma SquareNonNegative(r: real)
    ensures r * r >= 0.0
  {
  }

  lemma SquareVanishes(r: real)
    requires r * r == 0.0
    ensures r == 0.0
  {
    if r != 0.0 {
      ProductVanishes(r, r);
    }
  }

  /** A product with a non-zero factor vanishes only when the other factor does */
  lemma ProductVanishes(k: real, r: real)
    requires r != 0.0 && k * r == 0.0
    ensures k == 0.0
  {
  }

  lemma NonZeroProduct(a: real, b: real)
    requires a != 0.0 && b != 0.0
    ensures a * b != 0.0
  {
  }

  lemma TimesZero(k: real, x: real)
    requires x == 0.0
    ensures k * x == 0.0
  {
  }

  lemma TimesNeg(k: real, t: real)
    ensures k * (-t) == -(k * t)
  {
  }

  /** With d == -t: k d == -(k t) and (-t) k == -(k t) */
  lemma NegProduct(k: real, d: real, t: real)
    ensures d == -t ==> k * d == -(k * t)
    ensures (-t) * k == -(k * t)
  {
  }

  /** A scalar multiple of a non-zero vector vanishes only for the scalar zero */
  lemma ScaleVanishes(k: real, a: Vec3)
    requires a != Zero
    ensures Scale(k, a) == Zero <==> k == 0.0
  {
    if Scale(k, a) == Zero {
      if a.x != 0.0 {
        ProductVanishes(k, a.x);
      } else if a.y != 0.0 {
        ProductVanishes(k, a.y);
      } else {
        ProductVanishes(k, a.z);
      }
    }
  }

  /*
   * The identities below are proved in two steps: a lemma that only unfolds the
   * definitions into coordinates, and a polynomial identity over plain reals.
   * Keeping the two apart keeps each proof obligation small.
   */

  /** The cross product is orthogonal to both of its factors */
  lemma CrossOrthogonal(a: Vec3, b: Vec3)
    ensures Dot(a, Cross(a, b)) == 0.0
    ensures Dot(b, Cross(a, b)) == 0.0
  {
    DotCrossCoordinates(a, a, b);
    DotCrossCoordinates(b, a, b);
    OrthogonalTerms(a.x, a.y, a.z, b.x, b.y, b.z);
  }

  /** The triple product a . (b x c) written out in coordinates */
  lemma DotCrossCoordinates(a: Vec3, b: Vec3, c: Vec3)
    ensures Dot(a, Cross(b, c))
         == a.x * (b.y * c.z - b.z * c.y) + a.y * (b.z * c.x - b.x * c.z) + a.z * (b.x * c.y - b.y * c.x)
  {
  }

  lemma OrthogonalTerms(a1: real, a2: real, a3: real, b1: real, b2: real, b3: real)
    ensures a1 * (a2 * b3 - a3 * b2) + a2 * (a3 * b1 - a1 * b3) + a3 * (a1 * b2 - a2 * b1) == 0.0
    ensures b1 * (a2 * b3 - a3 * b2) + b2 * (a3 * b1 - a1 * b3) + b3 * (a1 * b2 - a2 * b1) == 0.0
  {
  }

  lemma CrossAntiSymmetric(a: Vec3, b: Vec3)
    ensures Cross(b, a) == Neg(Cross(a, b))
    ensures Cross(a, a) == Zero
  {
  }

  /** The scalar triple product is invariant under cyclic permutation */
  lemma TripleProductCyclic(a: Vec3, b: Vec3, c: Vec3)
    ensures Dot(a, Cross(b, c)) == Dot(b, Cross(c, a))
    ensures Dot(a, Cross(b, c)) == Dot(c, Cross(a, b))
  {
    DotCrossCoordinates(a, b, c);
    DotCrossCoordinates(b, c, a);
    DotCrossCoordinates(c, a, b);
    TripleTerms(a.x, a.y, a.z, b.x, b.y, b.z, c.x, c.y, c.z);
  }

  lemma TripleTerms(a1: real, a2: real, a3: real, b1: real, b2: real, b3: real, c1: real, c2: real, c3: real)
    ensures a1 * (b2 * c3 - b3 * c2) + a2 * (b3 * c1 - b1 * c3) + a3 * (b1 * c2 - b2 * c1)
         == b1 * (c2 * a3 - c3 * a2) + b2 * (c3 * a1 - c1 * a3) + b3 * (c1 * a2 - c2 * a1)
    ensures a1 * (b2 * c3 - b3 * c2) + a2 * (b3 * c1 - b1 * c3) + a3 * (b1 * c2 - b2 * c1)
         == c1 * (a2 * b3 - a3 * b2) + c2 * (a3 * b1 - a1 * b3) + c3 * (a1 * b2 - a2 * b1)
  {
  }

  /** The vector triple product expansion a x (b x c) = b (a.c) - c (a.b) */
  lemma DoubleCross(a: Vec3, b: Vec3, c: Vec3)
    ensures Cross(a, Cross(b, c)) == Sub(Scale(Dot(a, c), b), Scale(Dot(a, b), c))
  {
    DoubleCrossCoordinates(a, b, c);
    DoubleCrossCoordinatesExpanded(a, b, c);
    DoubleCrossTerms(a.x, a.y, a.z, b.x, b.y, b.z, c.x, c.y, c.z);
    DoubleCrossTerms(a.y, a.z, a.x, b.y, b.z, b.x, c.y, c.z, c.x);
    DoubleCrossTerms(a.z, a.x, a.y, b.z, b.x, b.y, c.z, c.x, c.y);
  }

  lemma DoubleCrossCoordinates(a: Vec3, b: Vec3, c: Vec3)
    ensures Cross(a, Cross(b, c))
         == Vec3(a.y * (b.x * c.y - b.y * c.x) - a.z * (b.z * c.x - b.x * c.z),
                 a.z * (b.y * c.z - b.z * c.y) - a.x * (b.x * c.y - b.y * c.x),
                 a.x * (b.z * c.x - b.x * c.z) - a.y * (b.y * c.z - b.z * c.y))
  {
  }

  lemma DoubleCrossCoordinatesExpanded(a: Vec3, b: Vec3, c: Vec3)
    ensures Sub(Scale(Dot(a, c), b), Scale(Dot(a, b), c))
         == Vec3((a.x * c.x + a.y * c.y + a.z * c.z) * b.x - (a.x * b.x + a.y * b.y + a.z * b.z) * c.x,
                 (a.x * c.x + a.y * c.y + a.z * c.z) * b.y - (a.x * b.x + a.y * b.y + a.z * b.z) * c.y,
                 (a.x * c.x + a.y * c.y + a.z * c.z) * b.z - (a.x * b.x + a.y * b.y + a.z * b.z) * c.z)
  {
  }

  /** One coordinate of a x (b x c) = b (a.c) - c (a.b), for the cyclic order 1, 2, 3 */
  lemma DoubleCrossTerms(a1: real, a2: real, a3: real, b1: real, b2: real, b3: real,
                         c1: real, c2: real, c3: real)
    ensures a2 * (b1 * c2 - b2 * c1) - a3 * (b3 * c1 - b1 * c3)
         == (a1 * c1 + a2 * c2 + a3 * c3) * b1 - (a1 * b1 + a2 * b2 + a3 * b3) * c1
    ensures a2 * (b1 * c2 - b2 * c1) - a3 * (b3 * c1 - b1 * c3)
         == (a3 * c3 + a1 * c1 + a2 * c2) * b1 - (a3 * b3 + a1 * b1 + a2 * b2) * c1
    ensures a2 * (b1 * c2 - b2 * c1) - a3 * (b3 * c1 - b1 * c3)
         == (a2 * c2 + a3 * c3 + a1 * c1) * b1 - (a2 * b2 + a3 * b3 + a1 * b1) * c1
  {
  }

  /** Lagrange's identity |a x b|^2 = |a|^2 |b|^2 - (a.b)^2 */
  lemma Lagrange(a: Vec3, b: Vec3)
    ensures LengthSquared(Cross(a, b)) == LengthSquared(a) * LengthSquared(b) - Dot(a, b) * Dot(a, b)
  {
    LagrangeCoordinates(a, b);
    LagrangeCoordinatesProduct(a, b);
    LagrangeTerms(a.x, a.y, a.z, b.x, b.y, b.z);
  }

  lemma LagrangeCoordinates(a: Vec3, b: Vec3)
    ensures LengthSquared(Cross(a, b))
         == (a.y * b.z - a.z * b.y) * (a.y * b.z - a.z * b.y) + (a.z * b.x - a.x * b.z) * (a.z * b.x - a.x * b.z)
          + (a.x * b.y - a.y * b.x) * (a.x * b.y - a.y * b.x)
  {
  }

  lemma LagrangeCoordinatesProduct(a: Vec3, b: Vec3)
    ensures LengthSquared(a) * LengthSquared(b) - Dot(a, b) * Dot(a, b)
         == (a.x * a.x + a.y * a.y + a.z * a.z) * (b.x * b.x + b.y * b.y + b.z * b.z)
          - (a.x * b.x + a.y * b.y + a.z * b.z) * (a.x * b.x + a.y * b.y + a.z * b.z)
  {
  }

  lemma LagrangeTerms(a1: real, a2: real, a3: real, b1: real, b2: real, b3: real)
    ensures (a2 * b3 - a3 * b2) * (a2 * b3 - a3 * b2) + (a3 * b1 - a1 * b3) * (a3 * b1 - a1 * b3)
          + (a1 * b2 - a2 * b1) * (a1 * b2 - a2 * b1)
         == (a1 * a1 + a2 * a2 + a3 * a3) * (b1 * b1 + b2 * b2 + b3 * b3)
          - (a1 * b1 + a2 * b2 + a3 * b3) * (a1 * b1 + a2 * b2 + a3 * b3)
  {
  }

  /** The dot product is linear in its second factor */
  lemma DotLinear(a: Vec3, b: Vec3, c: Vec3, k: real)
    ensures Dot(a, Add(b, c)) == Dot(a, b) + Dot(a, c)
    ensures Dot(a, Sub(b, c)) == Dot(a, b) - Dot(a, c)
    ensures Dot(a, Scale(k, b)) == k * Dot(a, b)
    ensures Dot(Scale(k, b), a) == k * Dot(a, b)
  {
    DotOfSum(a, b, c);
    DotOfDifference(a, b, c);
    DotOfScaled(a, b, k);
    DotOfScaledLeft(a, b, k);
    DotCoordinates(a, b);
    DotCoordinates(a, c);
    DotLinearTerms(a.x, a.y, a.z, b.x, b.y, b.z, c.x, c.y, c.z, k);
  }

  lemma DotOfSum(a: Vec3, b: Vec3, c: Vec3)
    ensures Dot(a, Add(b, c)) == a.x * (b.x + c.x) + a.y * (b.y + c.y) + a.z * (b.z + c.z)
  {
  }

  lemma DotOfDifference(a: Vec3, b: Vec3, c: Vec3)
    ensures Dot(a, Sub(b, c)) == a.x * (b.x - c.x) + a.y * (b.y - c.y) + a.z * (b.z - c.z)
  {
  }

  lemma DotOfScaled(a: Vec3, b: Vec3, k: real)
    ensures Dot(a, Scale(k, b)) == a.x * (k * b.x) + a.y * (k * b.y) + a.z * (k * b.z)
  {
  }

  lemma DotOfScaledLeft(a: Vec3, b: Vec3, k: real)
    ensures Dot(Scale(k, b), a) == (k * b.x) * a.x + (k * b.y) * a.y + (k * b.z) * a.z
  {
  }

  /** Scaling a vector by k scales its squared length by k * k */
  lemma LengthSquaredScale(k: real, a: Vec3)
    ensures LengthSquared(Scale(k, a)) == k * (k * LengthSquared(a))
  {
    DotLinear(Scale(k, a), a, a, k);
    DotLinear(a, a, a, k);
  }

  lemma DotSymmetric(a: Vec3, b: Vec3)
    ensures Dot(a, b) == Dot(b, a)
  {
    DotCoordinates(a, b);
    DotCoordinates(b, a);
  }

  lemma DotNeg(a: Vec3, b: Vec3)
    ensures Dot(a, Neg(b)) == -Dot(a, b)
  {
    DotOfNeg(a, b);
    DotCoordinates(a, b);
    NegTerms(a.x, a.y, a.z, b.x, b.y, b.z);
  }

  lemma DotOfNeg(a: Vec3, b: Vec3)
    ensures Dot(a, Neg(b)) == a.x * -b.x + a.y * -b.y + a.z * -b.z
  {
  }

  lemma NegTerms(a1: real, a2: real, a3: real, b1: real, b2: real, b3: real)
    ensures a1 * -b1 + a2 * -b2 + a3 * -b3 == -(a1 * b1 + a2 * b2 + a3 * b3)
  {
  }

  /** The dot product written out in coordinates */
  lemma DotCoordinates(a: Vec3, b: Vec3)
    ensures Dot(a, b) == a.x * b.x + a.y * b.y + a.z * b.z
  {
  }

  lemma DotLinearTerms(a1: real, a2: real, a3: real, b1: real, b2: real, b3: real,
                       c1: real, c2: real, c3: real, k: real)
    ensures a1 * (b1 + c1) + a2 * (b2 + c2) + a3 * (b3 + c3)
         == (a1 * b1 + a2 * b2 + a3 * b3) + (a1 * c1 + a2 * c2 + a3 * c3)
    ensures a1 * (b1 - c1) + a2 * (b2 - c2) + a3 * (b3 - c3)
         == (a1 * b1 + a2 * b2 + a3 * b3) - (a1 * c1 + a2 * c2 + a3 * c3)
    ensures a1 * (k * b1) + a2 * (k * b2) + a3 * (k * b3) == k * (a1 * b1 + a2 * b2 + a3 * b3)
    ensures (k * b1) * a1 + (k * b2) * a2 + (k * b3) * a3 == k * (a1 * b1 + a2 * b2 + a3 * b3)
  {
  }

  /** The cross product distributes over sums and differences */
  lemma CrossAdditive(a: Vec3, b: Vec3, c: Vec3)
    ensures Cross(a, Add(b, c)) == Add(Cross(a, b), Cross(a, c))
    ensures Cross(a, Sub(b, c)) == Sub(Cross(a, b), Cross(a, c))
  {
    CrossAdditiveCoordinates(a, b, c);
    CrossAdditiveCoordinatesDifference(a, b, c);
    CrossAdditiveCoordinatesSum(a, b, c);
    CrossAdditiveCoordinatesSumDifference(a, b, c);
    MinorAdditive(a.y, a.z, b.z, b.y, c.z, c.y);
    MinorAdditive(a.z, a.x, b.x, b.z, c.x, c.z);
    MinorAdditive(a.x, a.y, b.y, b.x, c.y, c.x);
  }

  /** The cross product distributes over a difference in its first factor */
  lemma CrossSubLeft(a: Vec3, b: Vec3, c: Vec3)
    ensures Cross(Sub(b, c), a) == Sub(Cross(b, a), Cross(c, a))
  {
    CrossAdditive(a, b, c);
    CrossAntiSymmetric(a, Sub(b, c));
    CrossAntiSymmetric(a, b);
    CrossAntiSymmetric(a, c);
    NegOfSub(Cross(a, b), Cross(a, c));
  }

  lemma NegOfSub(a: Vec3, b: Vec3)
    ensures Neg(Sub(a, b)) == Sub(Neg(a), Neg(b))
  {
  }

  lemma CrossAdditiveCoordinates(a: Vec3, b: Vec3, c: Vec3)
    ensures Cross(a, Add(b, c))
         == Vec3(a.y * (b.z + c.z) - a.z * (b.y + c.y),
                 a.z * (b.x + c.x) - a.x * (b.z + c.z),
                 a.x * (b.y + c.y) - a.y * (b.x + c.x))
  {
  }

  lemma CrossAdditiveCoordinatesDifference(a: Vec3, b: Vec3, c: Vec3)
    ensures Cross(a, Sub(b, c))
         == Vec3(a.y * (b.z - c.z) - a.z * (b.y - c.y),
                 a.z * (b.x - c.x) - a.x * (b.z - c.z),
                 a.x * (b.y - c.y) - a.y * (b.x - c.x))
  {
  }

  lemma CrossAdditiveCoordinatesSum(a: Vec3, b: Vec3, c: Vec3)
    ensures Add(Cross(a, b), Cross(a, c))
         == Vec3((a.y * b.z - a.z * b.y) + (a.y * c.z - a.z * c.y),
                 (a.z * b.x - a.x * b.z) + (a.z * c.x - a.x * c.z),
                 (a.x * b.y - a.y * b.x) + (a.x * c.y - a.y * c.x))
  {
  }

  lemma CrossAdditiveCoordinatesSumDifference(a: Vec3, b: Vec3, c: Vec3)
    ensures Sub(Cross(a, b), Cross(a, c))
         == Vec3((a.y * b.z - a.z * b.y) - (a.y * c.z - a.z * c.y),
                 (a.z * b.x - a.x * b.z) - (a.z * c.x - a.x * c.z),
                 (a.x * b.y - a.y * b.x) - (a.x * c.y - a.y * c.x))
  {
  }

  /** One coordinate p q - r s of a cross product is additive in (q, s) */
  lemma MinorAdditive(p: real, r: real, q1: real, s1: real, q2: real, s2: real)
    ensures p * (q1 + q2) - r * (s1 + s2) == (p * q1 - r * s1) + (p * q2 - r * s2)
    ensures p * (q1 - q2) - r * (s1 - s2) == (p * q1 - r * s1) - (p * q2 - r * s2)
  {
  }

  /** The cross product commutes with scaling either factor */
  lemma CrossHomogeneous(a: Vec3, b: Vec3, k: real)
    ensures Cross(a, Scale(k, b)) == Scale(k, Cross(a, b))
    ensures Cross(Scale(k, b), a) == Scale(k, Cross(b, a))
  {
    CrossHomogeneousCoordinates(a, b, k);
    CrossHomogeneousCoordinatesScaled(a, b, k);
    CrossHomogeneousCoordinatesLeft(a, b, k);
    CrossHomogeneousCoordinatesLeftScaled(a, b, k);
    MinorHomogeneous(a.y, a.z, b.z, b.y, k);
    MinorHomogeneous(a.z, a.x, b.x, b.z, k);
    MinorHomogeneous(a.x, a.y, b.y, b.x, k);
  }

  lemma CrossHomogeneousCoordinates(a: Vec3, b: Vec3, k: real)
    ensures Cross(a, Scale(k, b))
         == Vec3(a.y * (k * b.z) - a.z * (k * b.y), a.z * (k * b.x) - a.x * (k * b.z), a.x * (k * b.y) - a.y * (k * b.x))
  {
  }

  lemma CrossHomogeneousCoordinatesScaled(a: Vec3, b: Vec3, k: real)
    ensures Scale(k, Cross(a, b))
         == Vec3(k * (a.y * b.z - a.z * b.y), k * (a.z * b.x - a.x * b.z), k * (a.x * b.y - a.y * b.x))
  {
  }

  lemma CrossHomogeneousCoordinatesLeft(a: Vec3, b: Vec3, k: real)
    ensures Cross(Scale(k, b), a)
         == Vec3((k * b.y) * a.z - (k * b.z) * a.y, (k * b.z) * a.x - (k * b.x) * a.z, (k * b.x) * a.y - (k * b.y) * a.x)
  {
  }

  lemma CrossHomogeneousCoordinatesLeftScaled(a: Vec3, b: Vec3, k: real)
    ensures Scale(k, Cross(b, a))
         == Vec3(k * (b.y * a.z - b.z * a.y), k * (b.z * a.x - b.x * a.z), k * (b.x * a.y - b.y * a.x))
  {
  }

  /** One coordinate p q - r s of a cross product scales with (q, s) */
  lemma MinorHomogeneous(p: real, r: real, q: real, s: real, k: real)
    ensures p * (k * q) - r * (k * s) == k * (p * q - r * s)
    ensures (k * s) * r - (k * q) * p == k * (s * r - q * p)
  {
  }

  /** Scaling distributes over sums, differences and negation, and composes by multiplication */
  lemma ScaleLinear(j: real, k: real, a: Vec3, b: Vec3)
    ensures Scale(k, Add(a, b)) == Add(Scale(k, a), Scale(k, b))
    ensures Scale(k, Sub(a, b)) == Sub(Scale(k, a), Scale(k, b))
    ensures Scale(k, Neg(a)) == Neg(Scale(k, a))
    ensures Scale(k, Scale(j, a)) == Scale(k * j, a)
    ensures Add(Scale(j, a), Scale(k, a)) == Scale(j + k, a)
  {
    ScaleOverAdd(k, a, b);
    ScaleOverSub(k, a, b);
    ScaleOverNeg(k, a);
    ScaleTwice(j, k, a);
    ScaledSum(j, k, a);
  }

  lemma ScaleOverAdd(k: real, a: Vec3, b: Vec3)
    ensures Scale(k, Add(a, b)) == Add(Scale(k, a), Scale(k, b))
  {
    ScaleOfSum(k, a, b);
    ScaleTerms(0.0, k, a.x, b.x);
    ScaleTerms(0.0, k, a.y, b.y);
    ScaleTerms(0.0, k, a.z, b.z);
  }

  lemma ScaleOverSub(k: real, a: Vec3, b: Vec3)
    ensures Scale(k, Sub(a, b)) == Sub(Scale(k, a), Scale(k, b))
  {
    ScaleOfDifference(k, a, b);
    ScaleTerms(0.0, k, a.x, b.x);
    ScaleTerms(0.0, k, a.y, b.y);
    ScaleTerms(0.0, k, a.z, b.z);
  }

  lemma ScaleOverNeg(k: real, a: Vec3)
    ensures Scale(k, Neg(a)) == Neg(Scale(k, a))
  {
    ScaleOfNeg(k, a);
    ScaleTerms(0.0, k, a.x, 0.0);
    ScaleTerms(0.0, k, a.y, 0.0);
    ScaleTerms(0.0, k, a.z, 0.0);
  }

  lemma ScaleTwice(j: real, k: real, a: Vec3)
    ensures Scale(k, Scale(j, a)) == Scale(k * j, a)
  {
    ScaleOfScaled(j, k, a);
    ScaleTerms(j, k, a.x, 0.0);
    ScaleTerms(j, k, a.y, 0.0);
    ScaleTerms(j, k, a.z, 0.0);
  }

  lemma ScaledSum(j: real, k: real, a: Vec3)
    ensures Add(Scale(j, a), Scale(k, a)) == Scale(j + k, a)
  {
    SumOfScaled(j, k, a);
    ScaleTerms(j, k, a.x, 0.0);
    ScaleTerms(j, k, a.y, 0.0);
    ScaleTerms(j, k, a.z, 0.0);
  }

  lemma ScaleOfSum(k: real, a: Vec3, b: Vec3)
    ensures Scale(k, Add(a, b)) == Vec3(k * (a.x + b.x), k * (a.y + b.y), k * (a.z + b.z))
  {
  }

  lemma ScaleOfDifference(k: real, a: Vec3, b: Vec3)
    ensures Scale(k, Sub(a, b)) == Vec3(k * (a.x - b.x), k * (a.y - b.y), k * (a.z - b.z))
  {
  }

  lemma ScaleOfNeg(k: real, a: Vec3)
    ensures Scale(k, Neg(a)) == Vec3(k * -a.x, k * -a.y, k * -a.z)
  {
  }

  lemma ScaleOfScaled(j: real, k: real, a: Vec3)
    ensures Scale(k, Scale(j, a)) == Vec3(k * (j * a.x), k * (j * a.y), k * (j * a.z))
  {
  }

  lemma SumOfScaled(j: real, k: real, a: Vec3)
    ensures Add(Scale(j, a), Scale(k, a)) == Vec3(j * a.x + k * a.x, j * a.y + k * a.y, j * a.z + k * a.z)
  {
  }

  lemma ScaleTerms(j: real, k: real, p: real, q: real)
    ensures k * (p + q) == k * p + k * q
    ensures k * (p - q) == k * p - k * q
    ensures k * -p == -(k * p)
    ensures k * (j * p) == (k * j) * p
    ensures j * p + k * p == (j + k) * p
  {
  }
}
