/** Plane geometry shared by every text-on-path variant: points and vectors
    over the reals (Skia's SkPoint/SkVector with exact arithmetic), the
    tangent-to-normal rotation (`getNormal`) and the arc-length sampler of
    a measured contour (`SkContourMeasure`). */
module Geometry {

  /** SkPoint and SkVector are the same type in Skia; so here. */
  datatype Point = Point(x: real, y: real)

  function Add(a: Point, b: Point): Point { Point(a.x + b.x, a.y + b.y) }
  function Sub(a: Point, b: Point): Point { Point(a.x - b.x, a.y - b.y) }
  function Scale(a: Point, k: real): Point { Point(a.x * k, a.y * k) }
  function Dot(a: Point, b: Point): real { a.x * b.x + a.y * b.y }
  /** z-component of the cross product: positive when b is counter-clockwise of a. */
  function Cross(a: Point, b: Point): real { a.x * b.y - a.y * b.x }
  function Norm2(a: Point): real { a.x * a.x + a.y * a.y }

  /** `getNormal`: the tangent turned a quarter turn, (tx, ty) |-> (-ty, tx).
      NormalIsLeftPerpendicular and NormalUnique say what that means. */
  function Normal(t: Point): Point {
    Point(-t.y, t.x)
  }

  lemma NormalIsLeftPerpendicular(t: Point)
    ensures Dot(Normal(t), t) == 0.0
    ensures Norm2(Normal(t)) == Norm2(t)
    ensures Cross(t, Normal(t)) == Norm2(t)
  {
  }

  /** The three properties of `Normal` determine it: any vector perpendicular
      to a non-zero tangent whose cross product with it is the squared length
      is the quarter-turned tangent. */
  lemma NormalUnique(t: Point, n: Point)
    requires t.x != 0.0 || t.y != 0.0
    requires Dot(n, t) == 0.0 && Cross(t, n) == Norm2(t)
    ensures n == Normal(t)
  {
    var m := Normal(t);
    NormalIsLeftPerpendicular(t);
    // n - m is orthogonal to t and has zero cross product with t
    var d := Sub(n, m);
    assert Dot(d, t) == 0.0;
    assert Cross(t, d) == 0.0;
    assert d.x * Norm2(t) == 0.0 by {
      assert d.x * Norm2(t) == t.x * Dot(d, t) - t.y * Cross(t, d);
    }
    assert d.y * Norm2(t) == 0.0 by {
      assert d.y * Norm2(t) == t.y * Dot(d, t) + t.x * Cross(t, d);
    }
    assert Norm2(t) > 0.0 by {
      if t.x != 0.0 { assert t.x * t.x > 0.0; } else { assert t.y * t.y > 0.0; }
    }
  }

  /** Two quarter turns reverse a vector. */
  lemma NormalTwiceReverses(t: Point)
    ensures Normal(Normal(t)) == Scale(t, -1.0)
  {
  }

  /** What `getPosTan` writes: a position on the contour and the tangent there. */
  datatype PosTan = PosTan(pos: Point, tan: Point)

  /** A measured contour (`SkContourMeasure`): its length and its
      arc-length sampler, an uninterpreted function of the distance. Whatever
      Skia does with a distance outside [0, length] happens inside `posTan`. */
  datatype Contour = Contour(length: real, posTan: real -> PosTan)

  function Min(a: real, b: real): (m: real)
    ensures m <= a && m <= b && (m == a || m == b)
  {
    if a <= b then a else b
  }
}
