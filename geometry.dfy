/** Planar coordinates, squared distances and the square-root routine the siting core relies on.
    All geometry shares one planar reference frame (longitude, latitude); no projection is applied. */
module Geometry {

  /** A point in the plane: `x` is the longitude, `y` the latitude. */
  datatype Coord = Coord(x: real, y: real)

  /** The square of a real, written `v**2` in the source. */
  function Sq(v: real): real
  {
    v * v
  }

  /** Squaring is strictly increasing on the non-negative reals. */
  lemma SquareStrict(a: real, b: real)
    requires 0.0 <= a < b
    ensures Sq(a) < Sq(b)
  {
    var d := b - a;
    assert b * b == (a + d) * (a + d);
    assert (a + d) * (a + d) == a * a + 2.0 * a * d + d * d;
    assert 0.0 <= a * d;
    assert 0.0 < d * d;
  }

  /** On the non-negative reals, comparing two numbers is comparing their squares. */
  lemma SquareMonotone(a: real, b: real)
    requires 0.0 <= a && 0.0 <= b
    ensures a < b <==> Sq(a) < Sq(b)
  {
    if a < b {
      SquareStrict(a, b);
    } else if b < a {
      SquareStrict(b, a);
    }
  }

  /** A square is non-negative, and zero only for zero. */
  lemma SquareNonNegative(a: real)
    ensures 0.0 <= Sq(a)
    ensures Sq(a) == 0.0 ==> a == 0.0
  {
    if a < 0.0 {
      SquareStrict(0.0, -a);
      assert Sq(-a) == Sq(a);
    } else if 0.0 < a {
      SquareStrict(0.0, a);
    }
  }

  /** Squared Euclidean distance; it vanishes exactly when the two points coincide. */
  function SqDist(p: Coord, q: Coord): (d: real)
    ensures 0.0 <= d
    ensures d == 0.0 <==> p == q
  {
    SquareNonNegative(p.x - q.x);
    SquareNonNegative(p.y - q.y);
    Sq(p.x - q.x) + Sq(p.y - q.y)
  }

  /** The square-root routine is a parameter of the model (a foreign numeric routine);
      this is everything the model assumes of it, over exact reals. */
  ghost predicate IsSqrt(sqrt: real -> real)
  {
    forall d :: 0.0 <= d ==> 0.0 <= sqrt(d) && Sq(sqrt(d)) == d
  }

  /** Euclidean distance computed as the source does: the root of the sum of squares. */
  function Dist(sqrt: real -> real, p: Coord, q: Coord): real
  {
    sqrt(SqDist(p, q))
  }

  /** Comparing a root against a non-negative threshold is the same as comparing the
      radicand against the threshold's square, so no root is needed for the test. */
  lemma SqrtBelow(sqrt: real -> real, d: real, r: real)
    requires IsSqrt(sqrt)
    requires 0.0 <= d && 0.0 <= r
    ensures sqrt(d) < r <==> d < Sq(r)
  {
    SquareMonotone(sqrt(d), r);
  }

  /** The distance is non-negative, and it is zero exactly between equal points. */
  lemma DistProperties(sqrt: real -> real, p: Coord, q: Coord)
    requires IsSqrt(sqrt)
    ensures 0.0 <= Dist(sqrt, p, q)
    ensures Dist(sqrt, p, q) == 0.0 <==> p == q
  {
    SquareNonNegative(Dist(sqrt, p, q));
  }
}
