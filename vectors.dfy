/**
 * Two-dimensional vectors over the reals, standing in for p5.Vector.
 * Vectors here are values; the sketches' in-place vector updates become
 * field assignments in the classes that hold them.
 */
module Vectors {
  import opened RealFacts

  datatype Vec = Vec(x: real, y: real)

  const Zero := Vec(0.0, 0.0)

  function Add(a: Vec, b: Vec): Vec { Vec(a.x + b.x, a.y + b.y) }

  function Sub(a: Vec, b: Vec): Vec { Vec(a.x - b.x, a.y - b.y) }

  function Scale(a: Vec, k: real): Vec { Vec(a.x * k, a.y * k) }

  function Div(a: Vec, k: real): Vec
    requires k != 0.0
  {
    Vec(a.x / k, a.y / k)
  }

  function Neg(a: Vec): Vec { Vec(-a.x, -a.y) }

  function Dot(a: Vec, b: Vec): real { a.x * b.x + a.y * b.y }

  /** 2D cross product: zero exactly when the two vectors are parallel. */
  function Cross(a: Vec, b: Vec): real { a.x * b.y - a.y * b.x }

  /** Squared magnitude (p5's magSq); also the squared distance when applied to a difference. */
  function NormSq(a: Vec): real { a.x * a.x + a.y * a.y }

  /**
   * A square-root oracle: the sketches call Math.sqrt through mag, dist,
   * normalize, setMag and limit; the model receives it as a parameter that
   * must be the real square root on non-negative arguments.
   */
  ghost predicate IsSqrt(sqrt: real -> real)
  {
    forall v: real :: 0.0 <= v ==> 0.0 <= sqrt(v) && sqrt(v) * sqrt(v) == v
  }

  /**
   * p5's normalize on a vector whose magnitude is d: a zero magnitude
   * leaves the vector as it is (zero), anything else is divided by its
   * length, so that scaling the result by d gives the vector back.
   */
  function Normalize(a: Vec, d: real): (n: Vec)
    requires 0.0 <= d && d * d == NormSq(a)
    ensures d == 0.0 ==> n == a
    ensures Scale(n, d) == a || d == 0.0
  {
    if d == 0.0 then a
    else
      DivMulCancel(a.x, d);
      DivMulCancel(a.y, d);
      Div(a, d)
  }

  lemma SquareNonNegative(x: real)
    ensures 0.0 <= x * x
  {
    if x < 0.0 { MulPos(-x, -x); } else if 0.0 < x { MulPos(x, x); }
  }

  /**
   * A direction oracle: dir(v) is v divided by its magnitude (p5's
   * normalize, which limit and setMag use). For every non-zero v it is the
   * one unit vector on v's line that points v's way.
   */
  ghost predicate IsDirection(dir: Vec -> Vec)
  {
    forall v: Vec :: NormSq(v) != 0.0 ==>
      NormSq(dir(v)) == 1.0 && Cross(dir(v), v) == 0.0 && 0.0 < Dot(dir(v), v)
  }

  /**
   * p5's limit(max): a vector whose squared magnitude exceeds max * max is
   * divided by its magnitude and multiplied by max; any other is left as it
   * is. The result never exceeds the cap, a vector under the cap is
   * unchanged, and one over it ends exactly on the cap, on its own line
   * and, for a non-negative cap, pointing its own way.
   */
  function Limit(v: Vec, max: real, dir: Vec -> Vec): (r: Vec)
    requires IsDirection(dir)
    ensures NormSq(r) <= max * max
    ensures NormSq(v) <= max * max ==> r == v
    ensures max * max < NormSq(v) ==> NormSq(r) == max * max && Cross(r, v) == 0.0
    ensures 0.0 <= max ==> 0.0 <= Dot(r, v)
  {
    if NormSq(v) > max * max then
      SquareNonNegative(max);
      ScaledDirection(dir(v), v, max);
      Scale(dir(v), max)
    else
      SquareNonNegative(v.x);
      SquareNonNegative(v.y);
      v
  }

  /** A unit vector u on v's line, pointing v's way, scaled by k: squared magnitude k * k, still on v's line. */
  lemma ScaledDirection(u: Vec, v: Vec, k: real)
    requires NormSq(u) == 1.0 && Cross(u, v) == 0.0 && 0.0 < Dot(u, v)
    ensures NormSq(Scale(u, k)) == k * k
    ensures Cross(Scale(u, k), v) == 0.0
    ensures 0.0 <= k ==> 0.0 <= Dot(Scale(u, k), v)
  {
    assert NormSq(Scale(u, k)) == NormSq(u) * (k * k);
    assert Cross(Scale(u, k), v) == k * Cross(u, v);
    assert Dot(Scale(u, k), v) == k * Dot(u, v);
    if 0.0 < k { MulPos(k, Dot(u, v)); }
  }
}
