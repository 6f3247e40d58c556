/**
 * Small facts of real arithmetic that the solver does not find on its own
 * (it does not reason about products of unknowns unaided).
 */
module RealFacts {

  lemma MulPos(a: real, b: real)
    requires 0.0 < a && 0.0 < b
    ensures 0.0 < a * b
  {}

  lemma MulNonNeg(a: real, b: real)
    requires 0.0 <= a && 0.0 <= b
    ensures 0.0 <= a * b
  {}

  lemma DivSelf(k: real)
    requires k != 0.0
    ensures k / k == 1.0
  {}

  lemma DivMulCancel(y: real, k: real)
    requires k != 0.0
    ensures (y / k) * k == y
  {}

  /** A fraction u in [0, 1) of a non-negative w is in [0, w], and below w when w is positive. */
  lemma FractionOf(u: real, w: real)
    requires 0.0 <= u < 1.0 && 0.0 <= w
    ensures 0.0 <= u * w <= w
    ensures 0.0 < w ==> u * w < w
  {
    if 0.0 < u && 0.0 < w { MulPos(u, w); }
    if 0.0 < w { MulPos(1.0 - u, w); }
  }
}
