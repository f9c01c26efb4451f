/**
 * RGBA colours (library/color.c). `float` components are modelled as `real`.
 */
module Colors {

  datatype Color = Color(r: real, g: real, b: real, a: real)

  /** The documented range of every component: between 0 and 1. */
  predicate InRange(c: Color)
  {
    0.0 <= c.r <= 1.0 && 0.0 <= c.g <= 1.0 && 0.0 <= c.b <= 1.0 && 0.0 <= c.a <= 1.0
  }

  /** color_inverted: the colour channels are complemented, opacity is kept. */
  function Inverted(c: Color): (inv: Color)
    ensures inv.r + c.r == 1.0 && inv.g + c.g == 1.0 && inv.b + c.b == 1.0
    ensures inv.a == c.a
  {
    Color(1.0 - c.r, 1.0 - c.g, 1.0 - c.b, c.a)
  }

  /** color_equals: exact comparison of all four components, alpha included. */
  predicate Equals(c1: Color, c2: Color)
  {
    c1.r == c2.r && c1.g == c2.g && c1.b == c2.b && c1.a == c2.a
  }

  /** Inverting twice gives back the original colour. */
  lemma InvertedInvolution(c: Color)
    ensures Inverted(Inverted(c)) == c
  {
  }

  /** Inversion keeps a colour in the documented range. */
  lemma InvertedInRange(c: Color)
    requires InRange(c)
    ensures InRange(Inverted(c))
  {
  }

  /** Inversion never yields the same colour unless every channel is one half. */
  lemma InvertedFixedPoint(c: Color)
    ensures Inverted(c) == c <==> c.r == 0.5 && c.g == 0.5 && c.b == 0.5
  {
  }

  /** color_equals is structural equality, hence reflexive and symmetric. */
  lemma EqualsIsEquality(c1: Color, c2: Color)
    ensures Equals(c1, c2) <==> c1 == c2
    ensures Equals(c1, c1)
    ensures Equals(c1, c2) == Equals(c2, c1)
  {
  }
}
