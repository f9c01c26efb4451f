/**
 * The pure helpers of library/utils.c that the kernel uses: the rectangle
 * builder and the 0..255 colour constructor.
 */
module Utils {
  import opened Vectors
  import opened Colors
  import opened Polygons

  /** rgba: channels given on the 0..255 scale, stored on the 0..1 scale. */
  function Rgba(r: real, g: real, b: real, a: real): (c: Color)
    ensures c.r * 255.0 == r && c.g * 255.0 == g && c.b * 255.0 == b && c.a * 255.0 == a
  {
    Color(r / 255.0, g / 255.0, b / 255.0, a / 255.0)
  }

  /** Channels in 0..255 give a colour in the documented 0..1 range. */
  lemma RgbaInRange(r: real, g: real, b: real, a: real)
    requires 0.0 <= r <= 255.0 && 0.0 <= g <= 255.0 && 0.0 <= b <= 255.0 && 0.0 <= a <= 255.0
    ensures InRange(Rgba(r, g, b, a))
  {
  }

  /**
   * make_rectangle: the four corners of the axis-aligned rectangle of the
   * given width and height around `center`, starting bottom-left and going
   * counter-clockwise.
   */
  function MakeRectangle(width: real, height: real, center: Vector): (rect: Polygon)
    ensures |rect| == 4
  {
    [ Vector(-0.5 * width + center.x, -0.5 * height + center.y),
      Vector(0.5 * width + center.x, -0.5 * height + center.y),
      Vector(0.5 * width + center.x, 0.5 * height + center.y),
      Vector(-0.5 * width + center.x, 0.5 * height + center.y) ]
  }

  /** The average of the four corners of a polygon with four vertices. */
  function MeanOfFour(p: Polygon): Vector
    requires |p| == 4
  {
    Scale(0.25, Add(Add(Add(p[0], p[1]), p[2]), p[3]))
  }

  /**
   * The corners are the center moved by half the width and half the height,
   * each sign combination once, and their mean is the center.
   */
  lemma RectangleCorners(width: real, height: real, center: Vector)
    ensures forall i :: 0 <= i < 4 ==>
      var v := MakeRectangle(width, height, center)[i];
      (v.x - center.x == 0.5 * width || v.x - center.x == -0.5 * width) &&
      (v.y - center.y == 0.5 * height || v.y - center.y == -0.5 * height)
    ensures MeanOfFour(MakeRectangle(width, height, center)) == center
    ensures Subtract(MakeRectangle(width, height, center)[2], MakeRectangle(width, height, center)[0]) == Vector(width, height)
  {
  }

  /** (x1 + x2)(x1 y2 - x2 y1) summed over the rectangle's edges, over plain reals. */
  lemma RectangleCxPolynomial(x1: real, x2: real, y1: real, y2: real)
    ensures (x1 + x2) * (x1 * y1 - x2 * y1) + (x2 + x2) * (x2 * y2 - x2 * y1)
          + (x2 + x1) * (x2 * y2 - x1 * y2) + (x1 + x1) * (x1 * y1 - x1 * y2)
         == 3.0 * (x2 - x1) * (x2 + x1) * (y2 - y1)
  {
  }

  /** (y1 + y2)(x1 y2 - x2 y1) summed over the rectangle's edges, over plain reals. */
  lemma RectangleCyPolynomial(x1: real, x2: real, y1: real, y2: real)
    ensures (y1 + y1) * (x1 * y1 - x2 * y1) + (y1 + y2) * (x2 * y2 - x2 * y1)
          + (y2 + y2) * (x2 * y2 - x1 * y2) + (y2 + y1) * (x1 * y1 - x1 * y2)
         == 3.0 * (x2 - x1) * (y2 - y1) * (y2 + y1)
  {
  }

  /** The three edge sums of make_rectangle. */
  lemma RectangleSums(width: real, height: real, center: Vector)
    ensures SignedArea(MakeRectangle(width, height, center)) == width * height
    ensures LoopSum(MakeRectangle(width, height, center), CxTerm, 4) == 6.0 * (width * height) * center.x
    ensures LoopSum(MakeRectangle(width, height, center), CyTerm, 4) == 6.0 * (width * height) * center.y
  {
    var p := MakeRectangle(width, height, center);
    var x1, x2 := -0.5 * width + center.x, 0.5 * width + center.x;
    var y1, y2 := -0.5 * height + center.y, 0.5 * height + center.y;
    assert p == [Vector(x1, y1), Vector(x2, y1), Vector(x2, y2), Vector(x1, y2)];
    LoopSumFour(p, AreaTerm);
    LoopSumFour(p, CxTerm);
    LoopSumFour(p, CyTerm);
    RectangleCxPolynomial(x1, x2, y1, y2);
    RectangleCyPolynomial(x1, x2, y1, y2);
    assert x2 - x1 == width && y2 - y1 == height && x2 + x1 == 2.0 * center.x && y2 + y1 == 2.0 * center.y;
  }

  /**
   * polygon_area of make_rectangle is |width * height|; with positive sides
   * the signed area is positive, so the vertex order is counter-clockwise.
   */
  lemma RectangleArea(width: real, height: real, center: Vector)
    ensures SignedArea(MakeRectangle(width, height, center)) == width * height
    ensures Area(MakeRectangle(width, height, center)) == Abs(width * height)
    ensures width > 0.0 && height > 0.0 ==> SignedArea(MakeRectangle(width, height, center)) > 0.0
  {
    RectangleSums(width, height, center);
  }

  /** The centroid of a rectangle that is not flat is its center. */
  lemma RectangleCentroid(width: real, height: real, center: Vector)
    requires width * height != 0.0
    ensures SignedArea(MakeRectangle(width, height, center)) != 0.0
    ensures Centroid(MakeRectangle(width, height, center)) == center
  {
    RectangleSums(width, height, center);
    var s := width * height;
    CancelSix(s, center.x);
    CancelSix(s, center.y);
  }

  lemma CancelSix(s: real, c: real)
    requires s != 0.0
    ensures (6.0 * s * c) / (6.0 * s) == c
  {
  }

  /** The unit square walked clockwise, from (0, 1). */
  function ClockwiseUnitSquare(): Polygon
  {
    Reverse(MakeRectangle(1.0, 1.0, Vector(0.5, 0.5)))
  }

  /**
   * polygon_centroid as written places the centroid of the clockwise unit
   * square at (-0.5, -0.5), outside the square; the centroid is (0.5, 0.5).
   */
  lemma ClockwiseSquareCentroid()
    ensures ClockwiseUnitSquare() == [Vector(0.0, 1.0), Vector(1.0, 1.0), Vector(1.0, 0.0), Vector(0.0, 0.0)]
    ensures SignedArea(ClockwiseUnitSquare()) == -1.0 && Area(ClockwiseUnitSquare()) == 1.0
    ensures CentroidAsWritten(ClockwiseUnitSquare()) == Vector(-0.5, -0.5)
    ensures Centroid(ClockwiseUnitSquare()) == Vector(0.5, 0.5)
  {
    var r := MakeRectangle(1.0, 1.0, Vector(0.5, 0.5));
    RectangleCentroid(1.0, 1.0, Vector(0.5, 0.5));
    AreaReverse(r);
    CentroidReverse(r);
    CentroidAsWrittenReflects(Reverse(r));
  }
}
