/**
 * Two-dimensional vector algebra over the reals (library/vector.c).
 *
 * `double` is modelled as `real`. The C math library calls (sqrt, sin, cos,
 * acos) are not defined here: they are the fields of a `MathLib` value that
 * every caller passes in, and `Lawful` states the few facts about them that
 * the proofs use.
 */
module Vectors {

  datatype Vector = Vector(x: real, y: real)

  /** VEC_ZERO */
  const Zero: Vector := Vector(0.0, 0.0)

  /** The C math library functions the kernel calls. */
  datatype MathLib = MathLib(sqrt: real -> real, sin: real -> real, cos: real -> real, acos: real -> real)

  /**
   * The facts about the math library that the model relies on: sqrt is the
   * non-negative square root on non-negative arguments (zero only at zero,
   * one at one), and sin and cos take their usual values at 0.
   */
  ghost predicate Lawful(m: MathLib)
  {
    && (forall v: real :: 0.0 <= v ==> 0.0 <= m.sqrt(v) && m.sqrt(v) * m.sqrt(v) == v)
    && (forall v: real :: 0.0 < v ==> 0.0 < m.sqrt(v))
    && m.sqrt(0.0) == 0.0 && m.sqrt(1.0) == 1.0
    && m.sin(0.0) == 0.0 && m.cos(0.0) == 1.0
  }

  /** fabs */
  function Abs(r: real): (a: real)
    ensures a >= 0.0 && (a == r || a == -r)
  {
    if r < 0.0 then -r else r
  }

  function Add(a: Vector, b: Vector): Vector
  {
    Vector(a.x + b.x, a.y + b.y)
  }

  /** vec_multiply(scalar, v) */
  function Scale(k: real, v: Vector): Vector
  {
    Vector(k * v.x, k * v.y)
  }

  /** vec_negate is vec_multiply(-1, v) */
  function Negate(v: Vector): Vector
  {
    Scale(-1.0, v)
  }

  /** vec_subtract is vec_add(a, vec_negate(b)) */
  function Subtract(a: Vector, b: Vector): Vector
  {
    Add(a, Negate(b))
  }

  function Dot(a: Vector, b: Vector): real
  {
    a.x * b.x + a.y * b.y
  }

  /** The z-component of the three-dimensional cross product. */
  function Cross(a: Vector, b: Vector): real
  {
    a.x * b.y - a.y * b.x
  }

  /** vec_perpendicular: a quarter turn clockwise, (x, y) to (y, -x). */
  function Perpendicular(v: Vector): Vector
  {
    Vector(v.y, -v.x)
  }

  /** vec_equals: exact componentwise comparison. */
  predicate Equals(a: Vector, b: Vector)
  {
    a.x == b.x && a.y == b.y
  }

  /**
   * vec_trim: the two clamps of each component run one after the other,
   * lower bound first, exactly as written in the source.
   */
  function Trim(v: Vector, bound: Vector): Vector
  {
    var x1 := if v.x < -bound.x then -bound.x else v.x;
    var x2 := if x1 > bound.x then bound.x else x1;
    var y1 := if v.y < -bound.y then -bound.y else v.y;
    var y2 := if y1 > bound.y then bound.y else y1;
    Vector(x2, y2)
  }

  /** vec_rotate: counter-clockwise rotation by `angle` radians. */
  function Rotate(m: MathLib, v: Vector, angle: real): Vector
  {
    Vector(v.x * m.cos(angle) - v.y * m.sin(angle), v.x * m.sin(angle) + v.y * m.cos(angle))
  }

  function Norm(m: MathLib, v: Vector): real
  {
    m.sqrt(Dot(v, v))
  }

  function Dist(m: MathLib, a: Vector, b: Vector): real
  {
    Norm(m, Subtract(a, b))
  }

  /** vec_normalize; a zero-length vector would divide by zero. */
  function Normalize(m: MathLib, v: Vector): Vector
    requires Norm(m, v) != 0.0
  {
    Scale(1.0 / Norm(m, v), v)
  }

  /** vec_angle; undefined when either vector has zero length. */
  function Angle(m: MathLib, a: Vector, b: Vector): real
    requires Norm(m, a) != 0.0 && Norm(m, b) != 0.0
  {
    m.acos(Dot(a, b) / (Norm(m, a) * Norm(m, b)))
  }

  // ---------------------------------------------------------------------
  // Algebraic laws

  lemma AddZeroIdentity(v: Vector)
    ensures Add(v, Zero) == v && Add(Zero, v) == v
  {
  }

  lemma AddCommutes(a: Vector, b: Vector)
    ensures Add(a, b) == Add(b, a)
  {
  }

  lemma AddAssociates(a: Vector, b: Vector, c: Vector)
    ensures Add(Add(a, b), c) == Add(a, Add(b, c))
  {
  }

  lemma SubtractSelf(v: Vector)
    ensures Subtract(v, v) == Zero
  {
  }

  /** Subtracting and adding back the same vector is the identity. */
  lemma SubtractThenAdd(a: Vector, b: Vector)
    ensures Add(Subtract(a, b), b) == a
    ensures Subtract(a, b) == Negate(Subtract(b, a))
  {
  }

  lemma DotSymmetric(a: Vector, b: Vector)
    ensures Dot(a, b) == Dot(b, a)
  {
  }

  /** vec_dot(v, v) is non-negative and vanishes exactly on VEC_ZERO. */
  lemma DotSelfNonNegative(v: Vector)
    ensures Dot(v, v) >= 0.0
    ensures Dot(v, v) == 0.0 <==> v == Zero
  {
    DotSelfIsSumOfSquares(v);
    SumOfSquaresNonNegative(v.x, v.y);
    if v != Zero {
      NonZeroSumOfSquares(v);
    } else {
      assert Dot(Zero, Zero) == 0.0;
    }
  }

  lemma CrossAntisymmetric(a: Vector, b: Vector)
    ensures Cross(a, b) == -Cross(b, a)
    ensures Cross(a, a) == 0.0
  {
  }

  lemma PerpendicularOrthogonal(v: Vector)
    ensures Dot(Perpendicular(v), v) == 0.0
    ensures Perpendicular(Perpendicular(v)) == Negate(v)
    ensures Dot(Perpendicular(v), Perpendicular(v)) == Dot(v, v)
  {
  }

  lemma EqualsIsEquality(a: Vector, b: Vector)
    ensures Equals(a, b) <==> a == b
    ensures Equals(a, a)
    ensures Equals(a, b) == Equals(b, a)
  {
  }

  /**
   * For a bound with non-negative components, vec_trim puts each component
   * in [-bound, bound], leaves in-range components alone and is idempotent.
   */
  lemma TrimBounds(v: Vector, bound: Vector)
    requires bound.x >= 0.0 && bound.y >= 0.0
    ensures -bound.x <= Trim(v, bound).x <= bound.x
    ensures -bound.y <= Trim(v, bound).y <= bound.y
    ensures -bound.x <= v.x <= bound.x ==> Trim(v, bound).x == v.x
    ensures -bound.y <= v.y <= bound.y ==> Trim(v, bound).y == v.y
    ensures Trim(Trim(v, bound), bound) == Trim(v, bound)
  {
  }

  /** With a negative bound component the second clamp wins: the result is that component. */
  lemma TrimNegativeBound(v: Vector, bound: Vector)
    requires bound.x < 0.0
    ensures Trim(v, bound).x == bound.x
  {
  }

  lemma DistSymmetric(m: MathLib, a: Vector, b: Vector)
    ensures Dist(m, a, b) == Dist(m, b, a)
  {
    assert Subtract(a, b) == Negate(Subtract(b, a));
    assert Dot(Subtract(a, b), Subtract(a, b)) == Dot(Subtract(b, a), Subtract(b, a));
  }

  // Sign facts about sums of squares are stated through these two predicates
  // and proved over plain reals, then carried over to vec_dot by congruence.

  predicate Positive(r: real) { r > 0.0 }

  predicate NonNegative(r: real) { r >= 0.0 }

  lemma SumOfSquaresNonNegative(x: real, y: real)
    ensures NonNegative(x * x + y * y)
  {
    assert x * x + y * y >= 0.0;
  }

  lemma SumOfSquaresPositive(x: real, y: real)
    requires x != 0.0 || y != 0.0
    ensures Positive(x * x + y * y)
  {
    if x != 0.0 {
      assert x * x + y * y > 0.0;
    } else {
      assert y * y + x * x > 0.0;
    }
  }

  lemma DotSelfIsSumOfSquares(v: Vector)
    ensures Dot(v, v) == v.x * v.x + v.y * v.y
  {
  }

  lemma NonZeroSumOfSquares(v: Vector)
    requires v != Zero
    ensures Positive(v.x * v.x + v.y * v.y)
  {
    assert v.x != 0.0 || v.y != 0.0;
    SumOfSquaresPositive(v.x, v.y);
  }

  /** Under lawful sqrt the norm is non-negative and vanishes exactly on the zero vector. */
  lemma NormZeroIff(m: MathLib, v: Vector)
    requires Lawful(m)
    ensures Norm(m, v) >= 0.0
    ensures Norm(m, v) == 0.0 <==> v == Zero
  {
    DotSelfNonNegative(v);
  }

  /** Scaling by the reciprocal of a length of (x, y) gives a unit vector, over plain reals. */
  lemma UnitScale(k: real, n: real, x: real, y: real)
    requires k * n == 1.0 && n * n == x * x + y * y
    ensures (k * x) * (k * x) + (k * y) * (k * y) == 1.0
  {
    calc {
      (k * x) * (k * x) + (k * y) * (k * y);
      (k * k) * (x * x + y * y);
      (k * k) * (n * n);
      (k * n) * (k * n);
      1.0;
    }
  }

  /** vec_normalize returns a unit vector. */
  lemma NormalizeIsUnit(m: MathLib, v: Vector)
    requires Lawful(m) && v != Zero
    ensures Norm(m, v) > 0.0
    ensures Dot(Normalize(m, v), Normalize(m, v)) == 1.0
    ensures Norm(m, Normalize(m, v)) == 1.0
  {
    NormZeroIff(m, v);
    var n := Norm(m, v);
    var k := 1.0 / n;
    assert k * n == 1.0;
    UnitScale(k, n, v.x, v.y);
  }

  /** Normalizing a unit vector changes nothing. */
  lemma NormalizeUnitFixed(m: MathLib, v: Vector)
    requires Lawful(m) && Dot(v, v) == 1.0
    ensures Norm(m, v) == 1.0
    ensures Normalize(m, v) == v
  {
  }

  lemma AngleSymmetric(m: MathLib, a: Vector, b: Vector)
    requires Norm(m, a) != 0.0 && Norm(m, b) != 0.0
    ensures Angle(m, a, b) == Angle(m, b, a)
  {
    assert Dot(a, b) == Dot(b, a);
    assert Norm(m, a) * Norm(m, b) == Norm(m, b) * Norm(m, a);
  }

  /** Rotating the zero vector, or rotating by angle 0, changes nothing. */
  lemma RotateFixes(m: MathLib, v: Vector, angle: real)
    requires Lawful(m)
    ensures Rotate(m, Zero, angle) == Zero
    ensures Rotate(m, v, 0.0) == v
  {
  }

  /** vec_rotate is linear: it commutes with vec_subtract. */
  lemma RotateSubtract(m: MathLib, a: Vector, b: Vector, angle: real)
    ensures Rotate(m, Subtract(a, b), angle) == Subtract(Rotate(m, a, angle), Rotate(m, b, angle))
  {
    var c, s := m.cos(angle), m.sin(angle);
    var d := Subtract(a, b);
    assert d.x * c - d.y * s == (a.x * c - a.y * s) - (b.x * c - b.y * s);
    assert d.x * s + d.y * c == (a.x * s + a.y * c) - (b.x * s + b.y * c);
  }

  /** vec_rotate is linear: it commutes with vec_add. */
  lemma RotateAdd(m: MathLib, a: Vector, b: Vector, angle: real)
    ensures Rotate(m, Add(a, b), angle) == Add(Rotate(m, a, angle), Rotate(m, b, angle))
  {
    var c, s := m.cos(angle), m.sin(angle);
    var d := Add(a, b);
    assert d.x * c - d.y * s == (a.x * c - a.y * s) + (b.x * c - b.y * s);
    assert d.x * s + d.y * c == (a.x * s + a.y * c) + (b.x * s + b.y * c);
  }
}
