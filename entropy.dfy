/**
 * The sketches' sources of randomness, given as streams: `unit` is the
 * sequence of directions p5.Vector.random2D returns (it draws from
 * Math.random), `uniform` the sequence of values in [0, 1) behind p5's own
 * random(lo, hi). Each draw consumes the next element of its stream.
 */
module Entropy {
  import opened Vectors
  import opened RealFacts

  /** What p5's random(lo, lo + width) returns when the underlying draw is u. */
  function Between(lo: real, width: real, u: real): real
  {
    lo + u * width
  }

  class Rng {
    const unit: nat -> Vec
    const uniform: nat -> real
    var unitsDrawn: nat
    var uniformsDrawn: nat

    /** random2D yields unit vectors, random() yields values in [0, 1). */
    ghost predicate Valid()
    {
      && (forall n: nat :: NormSq(unit(n)) == 1.0)
      && (forall n: nat :: 0.0 <= uniform(n) < 1.0)
    }

    constructor (unit: nat -> Vec, uniform: nat -> real)
      ensures this.unit == unit && this.uniform == uniform
      ensures unitsDrawn == 0 && uniformsDrawn == 0
    {
      this.unit := unit;
      this.uniform := uniform;
      unitsDrawn, uniformsDrawn := 0, 0;
    }

    /** p5.Vector.random2D() */
    method Random2D() returns (v: Vec)
      modifies this`unitsDrawn
      ensures v == unit(old(unitsDrawn))
      ensures unitsDrawn == old(unitsDrawn) + 1
      ensures Valid() ==> NormSq(v) == 1.0
    {
      v := unit(unitsDrawn);
      unitsDrawn := unitsDrawn + 1;
    }

    /** p5's random(lo, hi): a uniform value in [lo, hi). */
    method Random(lo: real, hi: real) returns (r: real)
      requires lo <= hi
      modifies this`uniformsDrawn
      ensures r == Between(lo, hi - lo, uniform(old(uniformsDrawn)))
      ensures uniformsDrawn == old(uniformsDrawn) + 1
      ensures Valid() ==> lo <= r && (lo < hi ==> r < hi)
    {
      var u := uniform(uniformsDrawn);
      var w := hi - lo;
      uniformsDrawn := uniformsDrawn + 1;
      r := lo + u * w;
      if Valid() {
        FractionOf(u, w);
      }
    }
  }
}
