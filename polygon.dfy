/**
 * Polygons as vertex sequences (library/polygon.c).
 *
 * The shoelace area and the centroid are sums over the edges of the closed
 * polygon; `LoopSum` is that sum exactly as the C loop walks it, edge i
 * running from vertex i to vertex (i + 1) mod n. Translation and rotation
 * overwrite the vertices of the shape in place and are methods over an array.
 */
module Polygons {
  import opened Vectors

  type Polygon = seq<Vector>

  /** The sum of f over the first k edges of the closed polygon p. */
  function LoopSum(p: Polygon, f: (Vector, Vector) -> real, k: nat): real
    requires 1 <= |p| && k <= |p|
  {
    if k == 0 then 0.0 else LoopSum(p, f, k - 1) + f(p[k - 1], p[k % |p|])
  }

  /** The sum of f over the edges of the open path p (no closing edge). */
  function PathSum(p: Polygon, f: (Vector, Vector) -> real): real
  {
    if |p| < 2 then 0.0 else PathSum(p[..|p| - 1], f) + f(p[|p| - 2], p[|p| - 1])
  }

  /** An edge weight that changes sign when the edge is walked backwards. */
  ghost predicate Antisymmetric(f: (Vector, Vector) -> real)
  {
    forall a: Vector, b: Vector :: f(a, b) == -f(b, a)
  }

  /** The vertices in the opposite order: the same outline walked the other way round. */
  function Reverse(p: Polygon): (r: Polygon)
    ensures |r| == |p|
    ensures forall i :: 0 <= i < |p| ==> r[i] == p[|p| - 1 - i]
  {
    if |p| == 0 then [] else Reverse(p[1..]) + [p[0]]
  }

  /** The shoelace term of the edge from v1 to v2. */
  function AreaTerm(v1: Vector, v2: Vector): real
  {
    0.5 * (v2.x + v1.x) * (v2.y - v1.y)
  }

  /** The cross-weighted x term of the centroid sum. */
  function CxTerm(v1: Vector, v2: Vector): real
  {
    (v1.x + v2.x) * (v1.x * v2.y - v2.x * v1.y)
  }

  /** The cross-weighted y term of the centroid sum. */
  function CyTerm(v1: Vector, v2: Vector): real
  {
    (v1.y + v2.y) * (v1.x * v2.y - v2.x * v1.y)
  }

  /**
   * The signed shoelace sum: positive for counter-clockwise vertex order,
   * negative for clockwise order. The C loop needs at least one vertex,
   * since `list_size - 1` wraps around for an empty list.
   */
  function SignedArea(p: Polygon): real
    requires |p| >= 1
  {
    LoopSum(p, AreaTerm, |p|)
  }

  /** polygon_area: the absolute value of the signed sum. */
  function Area(p: Polygon): (a: real)
    requires |p| >= 1
    ensures a >= 0.0
    ensures a == SignedArea(p) || a == -SignedArea(p)
  {
    Abs(SignedArea(p))
  }

  /**
   * polygon_centroid as written: the cross-weighted sums divided by six
   * times polygon_area, which is the ABSOLUTE value of the signed area.
   */
  function CentroidAsWritten(p: Polygon): Vector
    requires |p| >= 1 && Area(p) != 0.0
  {
    Vector(LoopSum(p, CxTerm, |p|) / (6.0 * Area(p)), LoopSum(p, CyTerm, |p|) / (6.0 * Area(p)))
  }

  /** The centroid with the signed area in the denominator, as the centroid formula has it. */
  function Centroid(p: Polygon): Vector
    requires |p| >= 1 && SignedArea(p) != 0.0
  {
    Vector(LoopSum(p, CxTerm, |p|) / (6.0 * SignedArea(p)), LoopSum(p, CyTerm, |p|) / (6.0 * SignedArea(p)))
  }

  /** polygon_translate: every vertex moved by t. */
  function Translated(p: Polygon, t: Vector): (q: Polygon)
    ensures |q| == |p|
  {
    seq(|p|, i requires 0 <= i < |p| => Add(p[i], t))
  }

  /** One vertex of polygon_rotate: turned by `angle` around `pivot`. */
  function RotateAbout(m: MathLib, v: Vector, angle: real, pivot: Vector): Vector
  {
    Add(pivot, Rotate(m, Subtract(v, pivot), angle))
  }

  /** polygon_rotate: every vertex turned by `angle` around `pivot`. */
  function Rotated(m: MathLib, p: Polygon, angle: real, pivot: Vector): (q: Polygon)
    ensures |q| == |p|
  {
    seq(|p|, i requires 0 <= i < |p| => RotateAbout(m, p[i], angle, pivot))
  }

  // ---------------------------------------------------------------------
  // The loops of polygon.c

  /** The accumulating loop shared by polygon_area and polygon_centroid. */
  method SignedAreaSum(poly: array<Vector>) returns (sum: real)
    requires poly.Length >= 1
    ensures sum == SignedArea(poly[..])
  {
    var n := poly.Length;
    sum := 0.0;
    for i := 0 to n
      invariant sum == LoopSum(poly[..], AreaTerm, i)
    {
      ModSmall(i, n);
      var v1 := poly[i % n];
      var v2 := poly[(i + 1) % n];
      sum := sum + AreaTerm(v1, v2);
    }
  }

  /** polygon_area */
  method PolygonArea(poly: array<Vector>) returns (area: real)
    requires poly.Length >= 1
    ensures area == Area(poly[..])
    ensures area >= 0.0
  {
    var sum := SignedAreaSum(poly);
    area := if sum < 0.0 then -sum else sum;
  }

  /**
   * polygon_centroid, with the signed area in the denominator (see
   * CentroidAsWritten for the division by the absolute area).
   */
  method PolygonCentroid(poly: array<Vector>) returns (c: Vector)
    requires poly.Length >= 1 && SignedArea(poly[..]) != 0.0
    ensures c == Centroid(poly[..])
  {
    var area := SignedAreaSum(poly);
    var n := poly.Length;
    var x, y := 0.0, 0.0;
    for i := 0 to n
      invariant x == LoopSum(poly[..], CxTerm, i)
      invariant y == LoopSum(poly[..], CyTerm, i)
    {
      ModSmall(i, n);
      var v1 := poly[i % n];
      var v2 := poly[(i + 1) % n];
      x := x + CxTerm(v1, v2);
      y := y + CyTerm(v1, v2);
    }
    c := Vector(x / (6.0 * area), y / (6.0 * area));
  }

  /** polygon_translate: adds t to every vertex in place. */
  method Translate(poly: array<Vector>, t: Vector)
    modifies poly
    ensures poly[..] == Translated(old(poly[..]), t)
  {
    for i := 0 to poly.Length
      invariant forall j :: 0 <= j < i ==> poly[j] == Add(old(poly[j]), t)
      invariant forall j :: i <= j < poly.Length ==> poly[j] == old(poly[j])
    {
      poly[i] := Add(poly[i], t);
    }
  }

  /** polygon_rotate: turns every vertex around `pivot` in place. */
  method RotateInPlace(m: MathLib, poly: array<Vector>, angle: real, pivot: Vector)
    modifies poly
    ensures poly[..] == Rotated(m, old(poly[..]), angle, pivot)
  {
    for i := 0 to poly.Length
      invariant forall j :: 0 <= j < i ==> poly[j] == RotateAbout(m, old(poly[j]), angle, pivot)
      invariant forall j :: i <= j < poly.Length ==> poly[j] == old(poly[j])
    {
      var temp := Vector(poly[i].x - pivot.x, poly[i].y - pivot.y);
      var r := Rotate(m, temp, angle);
      poly[i] := Vector(pivot.x + r.x, pivot.y + r.y);
    }
  }

  // ---------------------------------------------------------------------
  // Edge sums

  /** An index below the length is its own remainder. */
  lemma ModSmall(i: nat, n: nat)
    requires i < n
    ensures i % n == i
  {
  }

  /** The loop sum of a four-vertex polygon, edge by edge. */
  lemma LoopSumFour(p: Polygon, f: (Vector, Vector) -> real)
    requires |p| == 4
    ensures LoopSum(p, f, 4) == f(p[0], p[1]) + f(p[1], p[2]) + f(p[2], p[3]) + f(p[3], p[0])
  {
    assert 4 % |p| == 0;
    assert LoopSum(p, f, 1) == f(p[0], p[1]);
    assert LoopSum(p, f, 2) == f(p[0], p[1]) + f(p[1], p[2]);
    assert LoopSum(p, f, 3) == f(p[0], p[1]) + f(p[1], p[2]) + f(p[2], p[3]);
  }

  /** Before the closing edge the loop sum is the sum along the open path. */
  lemma {:induction false} LoopSumIsPathSum(p: Polygon, f: (Vector, Vector) -> real, k: nat)
    requires 1 <= |p| && k < |p|
    ensures LoopSum(p, f, k) == PathSum(p[..k + 1], f)
  {
    if k > 0 {
      LoopSumIsPathSum(p, f, k - 1);
      var q := p[..k + 1];
      assert q[..k] == p[..k];
      assert q[k - 1] == p[k - 1] && q[k] == p[k];
      ModSmall(k, |p|);
      assert PathSum(q, f) == PathSum(p[..k], f) + f(p[k - 1], p[k]);
    }
  }

  /** The whole loop is the open path plus the closing edge from the last vertex to the first. */
  lemma CycleSumSplit(p: Polygon, f: (Vector, Vector) -> real)
    requires 1 <= |p|
    ensures LoopSum(p, f, |p|) == PathSum(p, f) + f(p[|p| - 1], p[0])
  {
    LoopSumIsPathSum(p, f, |p| - 1);
    assert p[..|p|] == p;
  }

  /** The path sum also splits off its first edge. */
  lemma {:induction false} PathSumFront(p: Polygon, f: (Vector, Vector) -> real)
    requires |p| >= 2
    ensures PathSum(p, f) == f(p[0], p[1]) + PathSum(p[1..], f)
  {
    if |p| > 2 {
      var q := p[..|p| - 1];
      PathSumFront(q, f);
      assert q[1..] == p[1..][..|p| - 2];
    }
  }

  /** Walking an open path backwards negates an antisymmetric edge sum. */
  lemma {:induction false} PathSumReverse(p: Polygon, f: (Vector, Vector) -> real)
    requires Antisymmetric(f)
    ensures PathSum(Reverse(p), f) == -PathSum(p, f)
  {
    if |p| >= 2 {
      var r := Reverse(p);
      assert r[..|r| - 1] == Reverse(p[1..]);
      PathSumReverse(p[1..], f);
      PathSumFront(p, f);
      assert f(r[|r| - 2], r[|r| - 1]) == f(p[1], p[0]) == -f(p[0], p[1]);
    }
  }

  /** Walking a closed polygon backwards negates an antisymmetric edge sum. */
  lemma CycleSumReverse(p: Polygon, f: (Vector, Vector) -> real)
    requires 1 <= |p| && Antisymmetric(f)
    ensures LoopSum(Reverse(p), f, |p|) == -LoopSum(p, f, |p|)
  {
    var r := Reverse(p);
    CycleSumSplit(p, f);
    CycleSumSplit(r, f);
    PathSumReverse(p, f);
    assert f(r[|r| - 1], r[0]) == f(p[0], p[|p| - 1]) == -f(p[|p| - 1], p[0]);
  }

  /** (a + b)(a x b) changes sign with the edge direction, over plain reals. */
  lemma CrossWeightAntisymmetric(s: real, t: real, a2x: real, a2y: real, b2x: real, b2y: real)
    ensures (t + s) * (b2x * a2y - a2x * b2y) == -((s + t) * (a2x * b2y - b2x * a2y))
  {
  }

  lemma TermsAntisymmetric()
    ensures Antisymmetric(AreaTerm)
    ensures Antisymmetric(CxTerm)
    ensures Antisymmetric(CyTerm)
  {
    forall a: Vector, b: Vector
      ensures AreaTerm(a, b) == -AreaTerm(b, a)
      ensures CxTerm(a, b) == -CxTerm(b, a)
      ensures CyTerm(a, b) == -CyTerm(b, a)
    {
      CrossWeightAntisymmetric(a.x, b.x, a.x, a.y, b.x, b.y);
      CrossWeightAntisymmetric(a.y, b.y, a.x, a.y, b.x, b.y);
    }
  }

  // ---------------------------------------------------------------------
  // Area

  /** Reversing the vertex order flips the sign of the signed area and keeps polygon_area. */
  lemma AreaReverse(p: Polygon)
    requires |p| >= 1
    ensures SignedArea(Reverse(p)) == -SignedArea(p)
    ensures Area(Reverse(p)) == Area(p)
  {
    TermsAntisymmetric();
    CycleSumReverse(p, AreaTerm);
  }

  /**
   * Moving every vertex by t adds t.x times the rise of the path so far;
   * around the closed loop the rise telescopes back to zero.
   */
  lemma {:induction false} TranslatedLoopSum(p: Polygon, t: Vector, k: nat)
    requires 1 <= |p| && k <= |p|
    ensures LoopSum(Translated(p, t), AreaTerm, k) == LoopSum(p, AreaTerm, k) + t.x * (p[k % |p|].y - p[0].y)
  {
    var q := Translated(p, t);
    if k > 0 {
      TranslatedLoopSum(p, t, k - 1);
      ModSmall(k - 1, |p|);
      var a, b := p[k - 1], p[k % |p|];
      assert q[k - 1] == Add(a, t) && q[k % |p|] == Add(b, t);
      ShiftedAreaTerm(a.x, a.y, b.x, b.y, t.x, t.y);
      assert AreaTerm(Add(a, t), Add(b, t)) == AreaTerm(a, b) + t.x * (b.y - a.y);
      Distribute(t.x, a.y - p[0].y, b.y - a.y);
    } else {
      assert 0 % |p| == 0;
    }
  }

  lemma Distribute(k: real, u: real, v: real)
    ensures k * u + k * v == k * (u + v)
  {
  }

  /** The shoelace term of an edge moved by (tx, ty), over plain reals. */
  lemma ShiftedAreaTerm(x1: real, y1: real, x2: real, y2: real, tx: real, ty: real)
    ensures 0.5 * ((x2 + tx) + (x1 + tx)) * ((y2 + ty) - (y1 + ty)) == 0.5 * (x2 + x1) * (y2 - y1) + tx * (y2 - y1)
  {
  }

  /** polygon_translate does not change polygon_area. */
  lemma TranslatePreservesArea(p: Polygon, t: Vector)
    requires |p| >= 1
    ensures SignedArea(Translated(p, t)) == SignedArea(p)
    ensures Area(Translated(p, t)) == Area(p)
  {
    TranslatedLoopSum(p, t, |p|);
  }

  // ---------------------------------------------------------------------
  // Centroid

  /** The corrected centroid does not depend on the direction the outline is walked. */
  lemma CentroidReverse(p: Polygon)
    requires |p| >= 1 && SignedArea(p) != 0.0
    ensures SignedArea(Reverse(p)) != 0.0
    ensures Centroid(Reverse(p)) == Centroid(p)
  {
    var r, n := Reverse(p), |p|;
    var sa, cx, cy := SignedArea(p), LoopSum(p, CxTerm, n), LoopSum(p, CyTerm, n);
    AreaReverse(p);
    assert LoopSum(r, CxTerm, n) == -cx && LoopSum(r, CyTerm, n) == -cy by {
      TermsAntisymmetric();
      CycleSumReverse(p, CxTerm);
      CycleSumReverse(p, CyTerm);
    }
    assert Centroid(r) == Vector((-cx) / (6.0 * -sa), (-cy) / (6.0 * -sa));
    QuotientOfNegations(cx, sa);
    QuotientOfNegations(cy, sa);
  }

  /** Negating the sum and the area leaves the centroid coordinate alone, over plain reals. */
  lemma QuotientOfNegations(a: real, s: real)
    requires s != 0.0
    ensures (-a) / (6.0 * -s) == a / (6.0 * s)
    ensures a / (6.0 * -s) == -(a / (6.0 * s))
  {
    var d := 6.0 * s;
    assert 6.0 * -s == -d;
  }

  /**
   * As written, polygon_centroid agrees with the centroid on counter-clockwise
   * polygons and reflects it through the origin on clockwise ones.
   */
  lemma CentroidAsWrittenReflects(p: Polygon)
    requires |p| >= 1 && SignedArea(p) != 0.0
    ensures Area(p) != 0.0
    ensures SignedArea(p) > 0.0 ==> CentroidAsWritten(p) == Centroid(p)
    ensures SignedArea(p) < 0.0 ==> CentroidAsWritten(p) == Negate(Centroid(p))
  {
    var sa := SignedArea(p);
    if sa < 0.0 {
      assert Area(p) == -sa;
      QuotientOfNegations(LoopSum(p, CxTerm, |p|), sa);
      QuotientOfNegations(LoopSum(p, CyTerm, |p|), sa);
    }
  }

  // ---------------------------------------------------------------------
  // Translation and rotation

  lemma TranslateZero(p: Polygon)
    ensures Translated(p, Zero) == p
  {
  }

  /** Translating by a and then by b is translating by a + b. */
  lemma TranslateCompose(p: Polygon, a: Vector, b: Vector)
    ensures Translated(Translated(p, a), b) == Translated(p, Add(a, b))
  {
  }

  /** polygon_rotate leaves a vertex at the pivot where it is, and turning by 0 changes nothing. */
  lemma RotatePivotFixed(m: MathLib, p: Polygon, angle: real, pivot: Vector)
    ensures forall i :: 0 <= i < |p| && p[i] == pivot ==> Rotated(m, p, angle, pivot)[i] == pivot
    ensures Lawful(m) ==> Rotated(m, p, 0.0, pivot) == p
  {
    forall i | 0 <= i < |p| && p[i] == pivot
      ensures Rotated(m, p, angle, pivot)[i] == pivot
    {
      SubtractSelf(pivot);
      assert Rotate(m, Zero, angle) == Zero;
    }
    if Lawful(m) {
      forall i | 0 <= i < |p|
        ensures Rotated(m, p, 0.0, pivot)[i] == p[i]
      {
        RotateFixes(m, Subtract(p[i], pivot), 0.0);
        SubtractThenAdd(p[i], pivot);
      }
    }
  }

  /** Rotating about a pivot commutes with translating both the polygon and the pivot. */
  lemma RotateTranslateCommute(m: MathLib, p: Polygon, angle: real, pivot: Vector, t: Vector)
    ensures Rotated(m, Translated(p, t), angle, Add(pivot, t)) == Translated(Rotated(m, p, angle, pivot), t)
  {
    forall i | 0 <= i < |p|
      ensures RotateAbout(m, Add(p[i], t), angle, Add(pivot, t)) == Add(RotateAbout(m, p[i], angle, pivot), t)
    {
      assert Subtract(Add(p[i], t), Add(pivot, t)) == Subtract(p[i], pivot);
    }
  }
}
