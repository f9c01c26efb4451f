/**
 * The separating-axis collision test of library/collision.c.
 *
 * Every edge of either polygon gives one candidate axis, the unit normal of
 * the edge. Both shapes are projected onto each axis; a gap between the two
 * intervals on any axis means the shapes are apart. Otherwise the shapes
 * collide and the reported axis is the first one of smallest overlap.
 *
 * The loops are methods over the vertex sequences (the shapes are not
 * changed); each is proved equal to the pure function that specifies it.
 */
module Collision {
  import opened Vectors
  import opened Polygons

  /** collision_info_t: `axis` is only meaningful when the shapes collided. */
  datatype CollisionInfo = NoCollision | Collision(axis: Vector)
  {
    predicate Collided()
    {
      Collision?
    }
  }

  /** The vector along edge i, from vertex i to the next vertex (the last edge closes the loop). */
  function Edge(s: Polygon, i: nat): Vector
    requires i < |s|
  {
    Subtract(s[(i + 1) % |s|], s[i])
  }

  /**
   * Every edge, closing edge included, joins two different points, so that
   * vec_normalize never sees a zero vector.
   */
  predicate EdgesNonZero(s: Polygon)
  {
    |s| >= 1 && forall i :: 0 <= i < |s| ==> Edge(s, i) != Zero
  }

  /** The unit normal of an edge, as get_perpendicular_lines computes it. */
  function EdgeAxis(m: MathLib, d: Vector): Vector
    requires Lawful(m) && d != Zero
  {
    NormalizeIsUnit(m, d);
    PerpendicularNonZero(m, Normalize(m, d));
    Normalize(m, Perpendicular(Normalize(m, d)))
  }

  /** The axes of one shape, one per edge in vertex order. */
  function ShapeAxes(m: MathLib, s: Polygon): (axes: seq<Vector>)
    requires Lawful(m) && EdgesNonZero(s)
    ensures |axes| == |s|
    ensures forall i :: 0 <= i < |s| ==> axes[i] == EdgeAxis(m, Edge(s, i))
  {
    seq(|s|, i requires 0 <= i < |s| && Lawful(m) && EdgesNonZero(s) => EdgeAxis(m, Edge(s, i)))
  }

  /** get_perpendicular_lines: the axes of shape1, then those of shape2. */
  function Axes(m: MathLib, s1: Polygon, s2: Polygon): (axes: seq<Vector>)
    requires Lawful(m) && EdgesNonZero(s1) && EdgesNonZero(s2)
    ensures |axes| == |s1| + |s2|
  {
    ShapeAxes(m, s1) + ShapeAxes(m, s2)
  }

  function Min(a: real, b: real): real
  {
    if b < a then b else a
  }

  function Max(a: real, b: real): real
  {
    if b > a then b else a
  }

  /** The smallest element of a non-empty sequence. */
  function MinOf(xs: seq<real>): real
    requires |xs| >= 1
  {
    if |xs| == 1 then xs[0] else Min(MinOf(xs[..|xs| - 1]), xs[|xs| - 1])
  }

  /** The largest element of a non-empty sequence. */
  function MaxOf(xs: seq<real>): real
    requires |xs| >= 1
  {
    if |xs| == 1 then xs[0] else Max(MaxOf(xs[..|xs| - 1]), xs[|xs| - 1])
  }

  /** The position of every vertex along `line`. */
  function Dots(s: Polygon, line: Vector): (ds: seq<real>)
    ensures |ds| == |s|
    ensures forall i :: 0 <= i < |s| ==> ds[i] == Dot(s[i], line)
  {
    seq(|s|, i requires 0 <= i < |s| => Dot(s[i], line))
  }

  /** project_shape: the interval (x = min, y = max) the shape covers along `line`. */
  function Projection(s: Polygon, line: Vector): Vector
    requires |s| >= 1
  {
    Vector(MinOf(Dots(s, line)), MaxOf(Dots(s, line)))
  }

  /** The closed-interval overlap test of intersect. */
  predicate IntervalsMeet(p1: Vector, p2: Vector)
  {
    p1.x <= p2.y && p1.y >= p2.x
  }

  /** intersect: the projections of both shapes on `line` meet. */
  predicate Intersect(line: Vector, s1: Polygon, s2: Polygon)
    requires |s1| >= 1 && |s2| >= 1
  {
    IntervalsMeet(Projection(s1, line), Projection(s2, line))
  }

  /** fmin(fabs(min1 - max2), fabs(max1 - min2)) */
  function Overlap(line: Vector, s1: Polygon, s2: Polygon): real
    requires |s1| >= 1 && |s2| >= 1
  {
    var p1, p2 := Projection(s1, line), Projection(s2, line);
    Min(Abs(p1.x - p2.y), Abs(p1.y - p2.x))
  }

  function Overlaps(axes: seq<Vector>, s1: Polygon, s2: Polygon): (os: seq<real>)
    requires |s1| >= 1 && |s2| >= 1
    ensures |os| == |axes|
    ensures forall i :: 0 <= i < |axes| ==> os[i] == Overlap(axes[i], s1, s2)
  {
    seq(|axes|, i requires 0 <= i < |axes| && |s1| >= 1 && |s2| >= 1 => Overlap(axes[i], s1, s2))
  }

  /**
   * The index find_collision keeps among the first n entries: the first one
   * is taken unconditionally, later ones only when strictly smaller.
   */
  function ArgMin(xs: seq<real>, n: nat): (k: nat)
    requires 1 <= n <= |xs|
    ensures k < n
  {
    if n == 1 then 0
    else
      var k := ArgMin(xs, n - 1);
      if xs[n - 1] < xs[k] then n - 1 else k
  }

  /** intersect holds on each of the first n axes. */
  predicate AllMeet(axes: seq<Vector>, s1: Polygon, s2: Polygon, n: nat)
    requires n <= |axes| && |s1| >= 1 && |s2| >= 1
  {
    n == 0 || (AllMeet(axes, s1, s2, n - 1) && Intersect(axes[n - 1], s1, s2))
  }

  /** Some axis separates the two shapes. */
  predicate Separated(axes: seq<Vector>, s1: Polygon, s2: Polygon)
    requires |s1| >= 1 && |s2| >= 1
  {
    !AllMeet(axes, s1, s2, |axes|)
  }

  /** Every candidate axis can be normalized. */
  ghost predicate Normalizable(m: MathLib, axes: seq<Vector>)
  {
    forall i :: 0 <= i < |axes| ==> Norm(m, axes[i]) != 0.0
  }

  /**
   * The verdict of find_collision on a given list of axes: apart when some
   * axis separates the shapes, otherwise the (normalized) first axis of
   * smallest overlap.
   */
  function SatVerdict(m: MathLib, axes: seq<Vector>, s1: Polygon, s2: Polygon): CollisionInfo
    requires |axes| >= 1 && |s1| >= 1 && |s2| >= 1 && Normalizable(m, axes)
  {
    if Separated(axes, s1, s2) then NoCollision
    else Collision(Normalize(m, axes[ArgMin(Overlaps(axes, s1, s2), |axes|)]))
  }

  /** find_collision */
  function FindCollisionSpec(m: MathLib, s1: Polygon, s2: Polygon): CollisionInfo
    requires Lawful(m) && EdgesNonZero(s1) && EdgesNonZero(s2)
  {
    AxesNormalizable(m, s1, s2);
    SatVerdict(m, Axes(m, s1, s2), s1, s2)
  }

  // ---------------------------------------------------------------------
  // The loops of collision.c

  /** get_perpendicular_lines */
  method GetPerpendicularLines(m: MathLib, shape1: Polygon, shape2: Polygon) returns (lines: seq<Vector>)
    requires Lawful(m) && EdgesNonZero(shape1) && EdgesNonZero(shape2)
    ensures lines == Axes(m, shape1, shape2)
  {
    lines := [];
    var n1 := |shape1|;
    for i := 0 to n1
      invariant lines == ShapeAxes(m, shape1)[..i]
    {
      var v1 := shape1[i];
      var v2 := shape1[(i + 1) % n1];
      assert Subtract(v2, v1) == Edge(shape1, i) != Zero;
      NormalizeIsUnit(m, Subtract(v2, v1));
      var parallel := Normalize(m, Subtract(v2, v1));
      PerpendicularNonZero(m, parallel);
      var perpendicular := Normalize(m, Perpendicular(parallel));
      lines := lines + [perpendicular];
    }
    var n2 := |shape2|;
    for i := 0 to n2
      invariant lines == ShapeAxes(m, shape1) + ShapeAxes(m, shape2)[..i]
    {
      var v1 := shape2[i];
      var v2 := shape2[(i + 1) % n2];
      assert Subtract(v2, v1) == Edge(shape2, i) != Zero;
      NormalizeIsUnit(m, Subtract(v2, v1));
      var parallel := Normalize(m, Subtract(v2, v1));
      PerpendicularNonZero(m, parallel);
      var perpendicular := Normalize(m, Perpendicular(parallel));
      lines := lines + [perpendicular];
    }
  }

  /** project_shape: a running minimum and maximum, starting from the first vertex. */
  method ProjectShape(shape: Polygon, line: Vector) returns (endpoints: Vector)
    requires |shape| >= 1
    ensures endpoints == Projection(shape, line)
  {
    var ds := Dots(shape, line);
    var minLength := Dot(shape[0], line);
    var maxLength := Dot(shape[0], line);
    for i := 0 to |shape|
      invariant i == 0 ==> minLength == maxLength == ds[0]
      invariant i > 0 ==> minLength == MinOf(ds[..i]) && maxLength == MaxOf(ds[..i])
      invariant minLength <= maxLength
    {
      var vecLen := Dot(shape[i], line);
      if vecLen < minLength {
        minLength := vecLen;
      } else if vecLen > maxLength {
        maxLength := vecLen;
      }
      if i > 0 {
        assert ds[..i + 1][..i] == ds[..i];
      }
    }
    assert ds[..|shape|] == ds;
    endpoints := Vector(minLength, maxLength);
  }

  /** intersect */
  method IntersectShapes(line: Vector, shape1: Polygon, shape2: Polygon) returns (meet: bool)
    requires |shape1| >= 1 && |shape2| >= 1
    ensures meet == Intersect(line, shape1, shape2)
  {
    var e1 := ProjectShape(shape1, line);
    var e2 := ProjectShape(shape2, line);
    meet := e1.x <= e2.y && e1.y >= e2.x;
  }

  /** find_collision: the axes of both shapes, then the verdict on them. */
  method FindCollision(m: MathLib, shape1: Polygon, shape2: Polygon) returns (info: CollisionInfo)
    requires Lawful(m) && EdgesNonZero(shape1) && EdgesNonZero(shape2)
    ensures info == FindCollisionSpec(m, shape1, shape2)
  {
    var lines := GetPerpendicularLines(m, shape1, shape2);
    AxesNormalizable(m, shape1, shape2);
    info := FindOnAxes(m, lines, shape1, shape2);
  }

  /** find_collision(shape1, shape2).collided, as the callers use it. */
  method Collides(m: MathLib, shape1: Polygon, shape2: Polygon) returns (collided: bool)
    requires Lawful(m) && EdgesNonZero(shape1) && EdgesNonZero(shape2)
    ensures collided == FindCollisionSpec(m, shape1, shape2).Collided()
  {
    var collision := FindCollision(m, shape1, shape2);
    collided := collision.Collided();
  }

  /**
   * The state of the loop of find_collision: nothing looked at yet, a
   * separating axis found, or the index, overlap and normalized axis kept.
   */
  datatype Scan = Unscanned | Apart | Best(index: nat, smallest: real, axis: Vector)

  /**
   * One iteration on axis i: a separating axis ends the scan; otherwise the
   * first axis is kept unconditionally and a later one only when its overlap
   * is strictly smaller.
   */
  function ScanStep(m: MathLib, lines: seq<Vector>, s1: Polygon, s2: Polygon, i: nat, sc: Scan): Scan
    requires i < |lines| && |s1| >= 1 && |s2| >= 1 && Normalizable(m, lines)
  {
    if !Intersect(lines[i], s1, s2) then Apart
    else
      var overlap := Overlap(lines[i], s1, s2);
      if sc.Unscanned? || (sc.Best? && overlap < sc.smallest) then Best(i, overlap, Normalize(m, lines[i])) else sc
  }

  /** The state of the loop after the first n axes. */
  function ScanTo(m: MathLib, lines: seq<Vector>, s1: Polygon, s2: Polygon, n: nat): (sc: Scan)
    requires n <= |lines| && |s1| >= 1 && |s2| >= 1 && Normalizable(m, lines)
    ensures sc.Unscanned? <==> n == 0
    ensures sc.Best? ==> sc.index < n
  {
    if n == 0 then Unscanned
    else
      var sc := ScanTo(m, lines, s1, s2, n - 1);
      if sc.Apart? then Apart else ScanStep(m, lines, s1, s2, n - 1, sc)
  }

  /** The loop of find_collision: stops at the first separating axis, else keeps the first smallest overlap. */
  method FindOnAxes(m: MathLib, lines: seq<Vector>, shape1: Polygon, shape2: Polygon) returns (info: CollisionInfo)
    requires |lines| >= 1 && |shape1| >= 1 && |shape2| >= 1 && Normalizable(m, lines)
    ensures info == SatVerdict(m, lines, shape1, shape2)
  {
    var smallestOverlap := 0.0;
    var collisionAxis := Zero;
    ghost var sc := Unscanned;
    for i := 0 to |lines|
      invariant sc == ScanTo(m, lines, shape1, shape2, i) && !sc.Apart?
      invariant sc.Best? ==> sc.smallest == smallestOverlap && sc.axis == collisionAxis
    {
      var meet;
      meet, smallestOverlap, collisionAxis, sc := ConsiderAxis(m, lines, shape1, shape2, i, smallestOverlap, collisionAxis, sc);
      if !meet {
        ScanVerdict(m, lines, shape1, shape2, i + 1);
        info := NoCollision;
        return;
      }
    }
    ScanVerdict(m, lines, shape1, shape2, |lines|);
    info := Collision(collisionAxis);
  }

  /** One pass of the loop of find_collision, on axis i. */
  method ConsiderAxis(m: MathLib, lines: seq<Vector>, shape1: Polygon, shape2: Polygon, i: nat,
                      smallestOverlap: real, collisionAxis: Vector, ghost sc: Scan)
    returns (meet: bool, smallest': real, axis': Vector, ghost sc': Scan)
    requires i < |lines| && |shape1| >= 1 && |shape2| >= 1 && Normalizable(m, lines)
    requires !sc.Apart? && (sc.Unscanned? <==> i == 0)
    requires sc.Best? ==> sc.smallest == smallestOverlap && sc.axis == collisionAxis
    ensures sc' == ScanStep(m, lines, shape1, shape2, i, sc)
    ensures meet <==> !sc'.Apart?
    ensures sc'.Best? ==> sc'.smallest == smallest' && sc'.axis == axis'
    ensures meet <==> Intersect(lines[i], shape1, shape2)
    ensures meet && (i == 0 || Overlap(lines[i], shape1, shape2) < smallestOverlap) ==>
              smallest' == Overlap(lines[i], shape1, shape2) && axis' == Normalize(m, lines[i])
    ensures !meet || (i > 0 && Overlap(lines[i], shape1, shape2) >= smallestOverlap) ==>
              smallest' == smallestOverlap && axis' == collisionAxis
  {
    meet := IntersectShapes(lines[i], shape1, shape2);
    smallest', axis', sc' := smallestOverlap, collisionAxis, sc;
    if !meet {
      sc' := Apart;
      return;
    }
    var axis := lines[i];
    var p1 := ProjectShape(shape1, axis);
    var p2 := ProjectShape(shape2, axis);
    var overlap := Min(Abs(p1.x - p2.y), Abs(p1.y - p2.x));
    assert overlap == Overlap(axis, shape1, shape2);
    if i == 0 {
      smallest' := overlap;
      axis' := Normalize(m, axis);
    } else if overlap < smallestOverlap {
      smallest' := overlap;
      axis' := Normalize(m, axis);
    }
    sc' := ScanStep(m, lines, shape1, shape2, i, sc);
  }

  /** The scan of the first n axes is apart exactly when one of them separates the shapes. */
  lemma {:induction false} ScanToApart(m: MathLib, lines: seq<Vector>, s1: Polygon, s2: Polygon, n: nat)
    requires n <= |lines| && |s1| >= 1 && |s2| >= 1 && Normalizable(m, lines)
    ensures ScanTo(m, lines, s1, s2, n).Apart? <==> !AllMeet(lines, s1, s2, n)
  {
    if n > 0 {
      ScanToApart(m, lines, s1, s2, n - 1);
      var sc := ScanTo(m, lines, s1, s2, n - 1);
      if !sc.Apart? {
        assert ScanStep(m, lines, s1, s2, n - 1, sc).Apart? <==> !Intersect(lines[n - 1], s1, s2);
      }
    }
  }

  /** When none of the first n axes separates the shapes, the scan keeps the first axis of smallest overlap among them. */
  lemma {:induction false} ScanToKept(m: MathLib, lines: seq<Vector>, s1: Polygon, s2: Polygon, n: nat)
    requires 1 <= n <= |lines| && |s1| >= 1 && |s2| >= 1 && Normalizable(m, lines)
    requires AllMeet(lines, s1, s2, n)
    ensures ScanTo(m, lines, s1, s2, n) == Kept(m, lines, s1, s2, ArgMin(Overlaps(lines, s1, s2), n))
  {
    if n == 1 {
      assert ScanTo(m, lines, s1, s2, 1) == ScanStep(m, lines, s1, s2, 0, Unscanned);
    } else {
      ScanToKept(m, lines, s1, s2, n - 1);
      StepKept(m, lines, s1, s2, n - 1);
    }
  }

  /**
   * A meeting axis i replaces the axis kept from the first i exactly when its
   * overlap is strictly smaller, which keeps the first minimum of the first i + 1.
   */
  lemma StepKept(m: MathLib, lines: seq<Vector>, s1: Polygon, s2: Polygon, i: nat)
    requires 1 <= i < |lines| && |s1| >= 1 && |s2| >= 1 && Normalizable(m, lines) && Intersect(lines[i], s1, s2)
    ensures ScanStep(m, lines, s1, s2, i, Kept(m, lines, s1, s2, ArgMin(Overlaps(lines, s1, s2), i)))
              == Kept(m, lines, s1, s2, ArgMin(Overlaps(lines, s1, s2), i + 1))
  {
    var os := Overlaps(lines, s1, s2);
    var k := ArgMin(os, i);
    assert ArgMin(os, i + 1) == if os[i] < os[k] then i else k;
  }

  /** The state that keeps axis k. */
  function Kept(m: MathLib, lines: seq<Vector>, s1: Polygon, s2: Polygon, k: nat): Scan
    requires k < |lines| && |s1| >= 1 && |s2| >= 1 && Normalizable(m, lines)
  {
    Best(k, Overlap(lines[k], s1, s2), Normalize(m, lines[k]))
  }

  /** Once the scan is apart, the verdict is no collision; at the end of a scan that is not, it is the axis kept. */
  lemma ScanVerdict(m: MathLib, lines: seq<Vector>, s1: Polygon, s2: Polygon, n: nat)
    requires 1 <= n <= |lines| && |s1| >= 1 && |s2| >= 1 && Normalizable(m, lines)
    ensures ScanTo(m, lines, s1, s2, n).Apart? ==> SatVerdict(m, lines, s1, s2) == NoCollision
    ensures n == |lines| && ScanTo(m, lines, s1, s2, n).Best? ==> SatVerdict(m, lines, s1, s2) == Collision(ScanTo(m, lines, s1, s2, n).axis)
  {
    ScanToApart(m, lines, s1, s2, n);
    if !AllMeet(lines, s1, s2, n) {
      AllMeetIff(lines, s1, s2, n);
      var j :| 0 <= j < n && !Intersect(lines[j], s1, s2);
      SeparatedAt(lines, s1, s2, j);
    } else {
      ScanToKept(m, lines, s1, s2, n);
    }
  }

  // ---------------------------------------------------------------------
  // Properties

  /** AllMeet is intersect on every one of the first n axes. */
  lemma {:induction false} AllMeetIff(axes: seq<Vector>, s1: Polygon, s2: Polygon, n: nat)
    requires n <= |axes| && |s1| >= 1 && |s2| >= 1
    ensures AllMeet(axes, s1, s2, n) <==> forall j :: 0 <= j < n ==> Intersect(axes[j], s1, s2)
  {
    if n > 0 {
      AllMeetIff(axes, s1, s2, n - 1);
    }
  }

  /** The shapes are separated exactly when some axis fails intersect. */
  lemma SeparatedIff(axes: seq<Vector>, s1: Polygon, s2: Polygon)
    requires |s1| >= 1 && |s2| >= 1
    ensures Separated(axes, s1, s2) <==> exists i :: 0 <= i < |axes| && !Intersect(axes[i], s1, s2)
  {
    AllMeetIff(axes, s1, s2, |axes|);
  }

  lemma SeparatedAt(axes: seq<Vector>, s1: Polygon, s2: Polygon, i: nat)
    requires |s1| >= 1 && |s2| >= 1 && i < |axes| && !Intersect(axes[i], s1, s2)
    ensures Separated(axes, s1, s2)
  {
    SeparatedIff(axes, s1, s2);
  }

  lemma AxesNormalizable(m: MathLib, s1: Polygon, s2: Polygon)
    requires Lawful(m) && EdgesNonZero(s1) && EdgesNonZero(s2)
    ensures Normalizable(m, Axes(m, s1, s2))
  {
    forall i | 0 <= i < |s1| + |s2|
      ensures Norm(m, Axes(m, s1, s2)[i]) != 0.0
    {
      AxisIsUnit(m, s1, s2, i);
    }
  }

  /** Every candidate axis is a unit vector, so normalizing it changes nothing. */
  lemma AxisIsUnit(m: MathLib, s1: Polygon, s2: Polygon, i: nat)
    requires Lawful(m) && EdgesNonZero(s1) && EdgesNonZero(s2) && i < |s1| + |s2|
    ensures Norm(m, Axes(m, s1, s2)[i]) == 1.0
    ensures Normalize(m, Axes(m, s1, s2)[i]) == Axes(m, s1, s2)[i]
  {
    var a := Axes(m, s1, s2)[i];
    var d := if i < |s1| then Edge(s1, i) else Edge(s2, i - |s1|);
    assert a == EdgeAxis(m, d);
    EdgeAxisIsUnitNormal(m, d);
    NormalizeUnitFixed(m, a);
  }

  /** A scaled quarter turn of a scaled vector is orthogonal to it, over plain reals. */
  lemma NormalOrthogonal(k: real, d: Vector)
    ensures Dot(Perpendicular(Scale(k, d)), d) == 0.0
  {
    assert (k * d.y) * d.x + -(k * d.x) * d.y == 0.0;
  }

  lemma PerpendicularNonZero(m: MathLib, u: Vector)
    requires Lawful(m) && Dot(u, u) == 1.0
    ensures Norm(m, Perpendicular(u)) == 1.0
  {
    PerpendicularOrthogonal(u);
  }

  /** The axis of an edge is a unit vector perpendicular to the edge. */
  lemma EdgeAxisIsUnitNormal(m: MathLib, d: Vector)
    requires Lawful(m) && d != Zero
    ensures Dot(EdgeAxis(m, d), d) == 0.0
    ensures Dot(EdgeAxis(m, d), EdgeAxis(m, d)) == 1.0
  {
    NormalizeIsUnit(m, d);
    var u := Normalize(m, d);
    PerpendicularNonZero(m, u);
    NormalizeUnitFixed(m, Perpendicular(u));
    NormalOrthogonal(1.0 / Norm(m, d), d);
  }

  /**
   * get_perpendicular_lines gives one axis per edge, those of shape1 first,
   * and each is a unit vector perpendicular to the edge it comes from.
   */
  lemma AxesPerpendicular(m: MathLib, s1: Polygon, s2: Polygon)
    requires Lawful(m) && EdgesNonZero(s1) && EdgesNonZero(s2)
    ensures forall i :: 0 <= i < |s1| ==> Axes(m, s1, s2)[i] == EdgeAxis(m, Edge(s1, i))
    ensures forall i :: |s1| <= i < |s1| + |s2| ==> Axes(m, s1, s2)[i] == EdgeAxis(m, Edge(s2, i - |s1|))
    ensures forall d :: d != Zero ==> Dot(EdgeAxis(m, d), d) == 0.0 && Dot(EdgeAxis(m, d), EdgeAxis(m, d)) == 1.0
  {
    forall d | d != Zero
      ensures Dot(EdgeAxis(m, d), d) == 0.0 && Dot(EdgeAxis(m, d), EdgeAxis(m, d)) == 1.0
    {
      EdgeAxisIsUnitNormal(m, d);
    }
  }

  /** MinOf is an element and a lower bound. */
  lemma {:induction false} MinOfIsMinimum(xs: seq<real>)
    requires |xs| >= 1
    ensures exists i :: 0 <= i < |xs| && xs[i] == MinOf(xs)
    ensures forall i :: 0 <= i < |xs| ==> MinOf(xs) <= xs[i]
  {
    if |xs| > 1 {
      var init := xs[..|xs| - 1];
      MinOfIsMinimum(init);
      var j :| 0 <= j < |init| && init[j] == MinOf(init);
      if xs[|xs| - 1] < MinOf(init) {
        assert xs[|xs| - 1] == MinOf(xs);
      } else {
        assert xs[j] == MinOf(xs);
      }
      forall i | 0 <= i < |xs|
        ensures MinOf(xs) <= xs[i]
      {
        if i < |xs| - 1 {
          assert xs[i] == init[i];
        }
      }
    } else {
      assert xs[0] == MinOf(xs);
    }
  }

  /** MaxOf is an element and an upper bound. */
  lemma {:induction false} MaxOfIsMaximum(xs: seq<real>)
    requires |xs| >= 1
    ensures exists i :: 0 <= i < |xs| && xs[i] == MaxOf(xs)
    ensures forall i :: 0 <= i < |xs| ==> xs[i] <= MaxOf(xs)
  {
    if |xs| > 1 {
      var init := xs[..|xs| - 1];
      MaxOfIsMaximum(init);
      var j :| 0 <= j < |init| && init[j] == MaxOf(init);
      if xs[|xs| - 1] > MaxOf(init) {
        assert xs[|xs| - 1] == MaxOf(xs);
      } else {
        assert xs[j] == MaxOf(xs);
      }
      forall i | 0 <= i < |xs|
        ensures xs[i] <= MaxOf(xs)
      {
        if i < |xs| - 1 {
          assert xs[i] == init[i];
        }
      }
    } else {
      assert xs[0] == MaxOf(xs);
    }
  }

  /**
   * project_shape returns the smallest and the largest position of a vertex
   * along the line, each attained by some vertex, so min <= max.
   */
  lemma ProjectionBounds(s: Polygon, line: Vector)
    requires |s| >= 1
    ensures forall i :: 0 <= i < |s| ==> Projection(s, line).x <= Dot(s[i], line) <= Projection(s, line).y
    ensures exists i :: 0 <= i < |s| && Dot(s[i], line) == Projection(s, line).x
    ensures exists i :: 0 <= i < |s| && Dot(s[i], line) == Projection(s, line).y
    ensures Projection(s, line).x <= Projection(s, line).y
  {
    var ds := Dots(s, line);
    MinOfIsMinimum(ds);
    MaxOfIsMaximum(ds);
    assert MinOf(ds) <= ds[0] <= MaxOf(ds);
  }

  /** intersect does not depend on the order of the shapes, and touching intervals meet. */
  lemma IntersectSymmetric(line: Vector, s1: Polygon, s2: Polygon)
    requires |s1| >= 1 && |s2| >= 1
    ensures Intersect(line, s1, s2) == Intersect(line, s2, s1)
    ensures Projection(s1, line).y == Projection(s2, line).x ==> Intersect(line, s1, s2)
  {
    ProjectionBounds(s1, line);
    ProjectionBounds(s2, line);
  }

  /**
   * ArgMin picks an entry no larger than any of the first n, and strictly
   * smaller than every entry before it: the first minimal one.
   */
  lemma {:induction false} ArgMinIsFirstMinimum(xs: seq<real>, n: nat)
    requires 1 <= n <= |xs|
    ensures forall j :: 0 <= j < n ==> xs[ArgMin(xs, n)] <= xs[j]
    ensures forall j :: 0 <= j < ArgMin(xs, n) ==> xs[ArgMin(xs, n)] < xs[j]
  {
    if n > 1 {
      ArgMinIsFirstMinimum(xs, n - 1);
    }
  }

  /** Swapping the shapes reorders the axes: shape2's first, then shape1's. */
  lemma AxesSwapped(m: MathLib, s1: Polygon, s2: Polygon)
    requires Lawful(m) && EdgesNonZero(s1) && EdgesNonZero(s2)
    ensures forall i :: 0 <= i < |s1| ==> Axes(m, s2, s1)[|s2| + i] == Axes(m, s1, s2)[i]
    ensures forall i :: 0 <= i < |s2| ==> Axes(m, s2, s1)[i] == Axes(m, s1, s2)[|s1| + i]
  {
  }

  /** Whether the shapes collide does not depend on the order they are given in. */
  lemma CollidedSymmetric(m: MathLib, s1: Polygon, s2: Polygon)
    requires Lawful(m) && EdgesNonZero(s1) && EdgesNonZero(s2)
    ensures FindCollisionSpec(m, s1, s2).Collided() == FindCollisionSpec(m, s2, s1).Collided()
  {
    SeparatedSwapped(m, s1, s2);
    SeparatedSwapped(m, s2, s1);
    CollidedIffNotSeparated(m, s1, s2);
    CollidedIffNotSeparated(m, s2, s1);
  }

  /** An axis that separates s1 from s2 also separates s2 from s1. */
  lemma SeparatedSwapped(m: MathLib, s1: Polygon, s2: Polygon)
    requires Lawful(m) && EdgesNonZero(s1) && EdgesNonZero(s2)
    ensures Separated(Axes(m, s1, s2), s1, s2) ==> Separated(Axes(m, s2, s1), s2, s1)
  {
    var a12, a21 := Axes(m, s1, s2), Axes(m, s2, s1);
    if Separated(a12, s1, s2) {
      SeparatedIff(a12, s1, s2);
      var i :| 0 <= i < |a12| && !Intersect(a12[i], s1, s2);
      var j := if i < |s1| then |s2| + i else i - |s1|;
      AxesSwapped(m, s1, s2);
      assert a21[j] == a12[i];
      IntersectSymmetric(a12[i], s1, s2);
      SeparatedAt(a21, s2, s1, j);
    }
  }

  lemma CollidedIffNotSeparated(m: MathLib, s1: Polygon, s2: Polygon)
    requires Lawful(m) && EdgesNonZero(s1) && EdgesNonZero(s2)
    ensures FindCollisionSpec(m, s1, s2).Collided() <==> !Separated(Axes(m, s1, s2), s1, s2)
  {
  }

  /** Shapes with a vertex in common meet on every axis, so find_collision reports a collision. */
  lemma SharedVertexCollides(m: MathLib, s1: Polygon, s2: Polygon, i1: nat, i2: nat)
    requires Lawful(m) && EdgesNonZero(s1) && EdgesNonZero(s2)
    requires i1 < |s1| && i2 < |s2| && s1[i1] == s2[i2]
    ensures FindCollisionSpec(m, s1, s2).Collided()
  {
    var axes := Axes(m, s1, s2);
    forall i | 0 <= i < |axes|
      ensures Intersect(axes[i], s1, s2)
    {
      ProjectionBounds(s1, axes[i]);
      ProjectionBounds(s2, axes[i]);
      assert Dot(s1[i1], axes[i]) == Dot(s2[i2], axes[i]);
    }
    SeparatedIff(axes, s1, s2);
  }

  /**
   * When the shapes collide, the reported axis is a unit vector, one of the
   * candidate axes, with the smallest overlap of all and strictly smaller
   * than every axis before it.
   */
  lemma CollisionAxisIsFirstMinimum(m: MathLib, s1: Polygon, s2: Polygon)
    requires Lawful(m) && EdgesNonZero(s1) && EdgesNonZero(s2)
    requires FindCollisionSpec(m, s1, s2).Collided()
    ensures exists k :: 0 <= k < |s1| + |s2| && IsFirstMinimalAxis(m, s1, s2, k) && FindCollisionSpec(m, s1, s2).axis == Axes(m, s1, s2)[k]
    ensures Norm(m, FindCollisionSpec(m, s1, s2).axis) == 1.0
  {
    var axes := Axes(m, s1, s2);
    var os := Overlaps(axes, s1, s2);
    var k := ArgMin(os, |axes|);
    ArgMinIsFirstMinimum(os, |axes|);
    AxisIsUnit(m, s1, s2, k);
    assert IsFirstMinimalAxis(m, s1, s2, k);
  }

  /** Axis k has the smallest overlap of all candidate axes and a strictly smaller one than every axis before it. */
  ghost predicate IsFirstMinimalAxis(m: MathLib, s1: Polygon, s2: Polygon, k: nat)
    requires Lawful(m) && EdgesNonZero(s1) && EdgesNonZero(s2) && k < |s1| + |s2|
  {
    var axes := Axes(m, s1, s2);
    && (forall j :: 0 <= j < |axes| ==> Overlap(axes[k], s1, s2) <= Overlap(axes[j], s1, s2))
    && (forall j :: 0 <= j < k ==> Overlap(axes[k], s1, s2) < Overlap(axes[j], s1, s2))
  }
}
