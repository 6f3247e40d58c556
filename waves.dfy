/**
 * The waves sketch (public/experiments/05-waves.js): a wave made of six
 * randomly drawn sine components, bent by Perlin noise and the mouse, whose
 * point lists are captured into a ring buffer so that earlier frames can be
 * drawn as fading echoes.
 *
 * p5's noise and sine are opaque functions handed in by the caller; the
 * window size and mouse position are a Screen value.
 */
module Waves05 {
  import opened RealFacts
  import opened Options
  import opened JsNumbers
  import Entropy

  const WAVE_COARSE_COMPONENTS := 6
  /** p5's TWO_PI, the double nearest to 2 pi. */
  const TWO_PI := 6.283185307179586

  /** One sine component: base frequency, amplitude and phase, how far noise may move each, and the noise's offset and speed. */
  datatype Component = Component(
    baseFreq: real, baseAmp: real, basePhase: real,
    freqVariation: real, ampVariation: real, phaseVariation: real,
    noiseOffset: real, noiseSpeed: real)

  /** A component's parameters in the current frame. */
  datatype Params = Params(freq: real, amp: real, phase: real)

  /** innerWidth, innerHeight, mouseX, mouseY. */
  datatype Screen = Screen(width: real, height: real, mouseX: real, mouseY: real)

  /** One point of a wave, the JavaScript pair [x, y]. */
  datatype Point = Point(x: real, y: real)

  /** p5's noise(x, y, z), with y and z 0 when left out, and sin. */
  datatype Field = Field(noise: (real, real, real) -> real, sin: real -> real)

  /** The ranges init draws the component at position k from; the first one's frequency varies more. */
  predicate Drawn(c: Component, k: int)
  {
    && 0.2 <= c.baseFreq < 6.0
    && 0.4 <= c.baseAmp < 3.0
    && 0.0 <= c.basePhase < TWO_PI
    && (if k == 0 then 2.0 <= c.freqVariation < 6.0 else 0.5 <= c.freqVariation < 2.0)
    && 0.2 <= c.ampVariation < 0.4
    && -TWO_PI <= c.phaseVariation < TWO_PI
    && 0.0 <= c.noiseOffset < 1000.0
    && 0.005 <= c.noiseSpeed < 0.097
  }

  /**
   * The object literal init pushes for component k, reading the uniform
   * stream u from position n on: one draw per field, in the order the
   * fields are written (n for baseFreq up to n + 7 for noiseSpeed).
   */
  function Drawing(k: int, u: nat -> real, n: nat): Component
  {
    Component(
      Entropy.Between(0.2, 6.0 - 0.2, u(n)), Entropy.Between(0.4, 3.0 - 0.4, u(n + 1)), Entropy.Between(0.0, TWO_PI - 0.0, u(n + 2)),
      if k == 0 then Entropy.Between(2.0, 6.0 - 2.0, u(n + 3)) else Entropy.Between(0.5, 2.0 - 0.5, u(n + 3)),
      Entropy.Between(0.2, 0.4 - 0.2, u(n + 4)), Entropy.Between(-TWO_PI, TWO_PI - (-TWO_PI), u(n + 5)),
      Entropy.Between(0.0, 1000.0 - 0.0, u(n + 6)), Entropy.Between(0.005, 0.097 - 0.005, u(n + 7)))
  }

  /** p5's map(v, a, b, c, d): v carried linearly from the range [a, b] onto [c, d], as p5 computes it. */
  function Map(v: real, a: real, b: real, c: real, d: real): (r: real)
    requires a != b
    ensures v == a ==> r == c
    ensures v == b ==> r == d
  {
    DivSelf(b - a);
    (v - a) / (b - a) * (d - c) + c
  }

  function Magnitude(w: real): real
  {
    if w < 0.0 then -w else w
  }

  /** A value in [0, 1] maps onto the range between -w and w, whatever the sign of w. */
  lemma MapOntoSpread(v: real, w: real)
    requires 0.0 <= v <= 1.0
    ensures -Magnitude(w) <= Map(v, 0.0, 1.0, -w, w) <= Magnitude(w)
  {
    assert Map(v, 0.0, 1.0, -w, w) == v * (2.0 * w) - w;
    if 0.0 <= w {
      MulNonNeg(v, 2.0 * w);
      MulNonNeg(1.0 - v, 2.0 * w);
    } else {
      MulNonNeg(v, -2.0 * w);
      MulNonNeg(1.0 - v, -2.0 * w);
    }
  }

  /** i / n for 0 <= i < n lies in [0, 1). */
  lemma Fraction(i: real, n: real)
    requires 0.0 <= i < n
    ensures 0.0 <= i / n < 1.0
  {
    var t := i / n;
    DivMulCancel(i, n);
    if t < 0.0 {
      MulPos(-t, n);
    } else if 1.0 <= t {
      MulNonNeg(t - 1.0, n);
    }
  }

  /** i / n grows with i. */
  lemma FractionGrows(i: real, j: real, n: real)
    requires i < j && 0.0 < n
    ensures i / n < j / n
  {
    var d := j / n - i / n;
    DivMulCancel(i, n);
    DivMulCancel(j, n);
    assert d * n == j - i;
    if d <= 0.0 {
      MulNonNeg(-d, n);
    }
  }

  /** The three noise values update samples for a component: for its frequency, its amplitude and its phase. */
  datatype Samples = Samples(freq: real, amp: real, phase: real)

  /** The noise values for component c at position k, read where the mouse points. */
  function SamplesOf(c: Component, k: nat, screen: Screen, field: Field): Samples
    requires screen.width != 0.0 && screen.height != 0.0
  {
    var mouseMapX := Map(screen.mouseX, 0.0, screen.width, 0.0, 1.0);
    var mouseMapY := Map(screen.mouseY, 0.0, screen.height, 0.0, 1.0);
    var at := c.noiseOffset * c.noiseSpeed;
    Samples(
      field.noise(at + mouseMapX, k as real * 0.1, 0.0),
      field.noise(at + mouseMapY, k as real * 0.1 + 100.0, 0.0),
      field.noise(at + mouseMapX, k as real * 0.1 + 200.0, mouseMapY))
  }

  /** A component's parameters once the noise has moved them; the amplitude is floored at 0.1. */
  function Varied(c: Component, n: Samples): (p: Params)
    ensures 0.1 <= p.amp
  {
    Params(
      c.baseFreq + Map(n.freq, 0.0, 1.0, -c.freqVariation, c.freqVariation),
      Max(0.1, c.baseAmp + Map(n.amp, 0.0, 1.0, -c.ampVariation, c.ampVariation)),
      c.basePhase + Map(n.phase, 0.0, 1.0, -c.phaseVariation, c.phaseVariation))
  }

  function Max(a: real, b: real): real
  {
    if a < b then b else a
  }

  /**
   * With noise in [0, 1] (as p5's noise is), noise moves each parameter
   * of a component by at most its variation, and the amplitude stays at
   * 0.1 or more.
   */
  lemma ParamsWithinVariation(c: Component, n: Samples)
    requires 0.0 <= n.freq <= 1.0 && 0.0 <= n.amp <= 1.0 && 0.0 <= n.phase <= 1.0
    requires 0.0 <= c.freqVariation && 0.0 <= c.ampVariation
    ensures var p := Varied(c, n);
      && c.baseFreq - c.freqVariation <= p.freq <= c.baseFreq + c.freqVariation
      && Max(0.1, c.baseAmp - c.ampVariation) <= p.amp <= Max(0.1, c.baseAmp + c.ampVariation)
      && c.basePhase - Magnitude(c.phaseVariation) <= p.phase <= c.basePhase + Magnitude(c.phaseVariation)
  {
    MapOntoSpread(n.freq, c.freqVariation);
    MapOntoSpread(n.amp, c.ampVariation);
    MapOntoSpread(n.phase, c.phaseVariation);
  }

  /** this.components.map(...): one set of parameters per component, in order. */
  function CurrentParams(cs: seq<Component>, screen: Screen, field: Field): (ps: seq<Params>)
    requires screen.width != 0.0 && screen.height != 0.0
    ensures |ps| == |cs|
    ensures forall k :: 0 <= k < |ps| ==> 0.1 <= ps[k].amp
  {
    seq(|cs|, k requires 0 <= k < |cs| => Varied(cs[k], SamplesOf(cs[k], k, screen, field)))
  }

  /** s.sin(x) */
  function Sine(field: Field, x: real): real
  {
    field.sin(x)
  }

  /** One component's contribution at an angle: sin(phase + angle * freq) * amp * 0.2. */
  function Term(p: Params, angle: real, field: Field): real
  {
    Scaled(Sine(field, Phase(p, angle)), p.amp)
  }

  /** The argument of sin for one component: phase + angle * freq. */
  function Phase(p: Params, angle: real): real
  {
    p.phase + angle * p.freq
  }

  /** A sine value weighted by an amplitude and a fifth. */
  function Scaled(s: real, a: real): real
  {
    s * a * 0.2
  }

  /** The sum the forEach builds, adding the components' terms in order. */
  function WaveSum(ps: seq<Params>, angle: real, field: Field): real
  {
    if ps == [] then 0.0 else WaveSum(ps[..|ps| - 1], angle, field) + Term(ps[|ps| - 1], angle, field)
  }

  /** The sum of the amplitudes. */
  function AmpTotal(ps: seq<Params>): real
  {
    if ps == [] then 0.0 else AmpTotal(ps[..|ps| - 1]) + ps[|ps| - 1].amp
  }

  /** With sin in [-1, 1] and amplitudes non-negative, the wave stays within a fifth of the total amplitude. */
  lemma {:induction false} WaveSumBounded(ps: seq<Params>, angle: real, field: Field)
    requires forall x :: -1.0 <= Sine(field, x) <= 1.0
    requires forall k :: 0 <= k < |ps| ==> 0.0 <= ps[k].amp
    ensures -0.2 * AmpTotal(ps) <= WaveSum(ps, angle, field) <= 0.2 * AmpTotal(ps)
    decreases |ps|
  {
    if ps != [] {
      var init, p := ps[..|ps| - 1], ps[|ps| - 1];
      WaveSumBounded(init, angle, field);
      TermBounded(p, angle, field);
    }
  }

  lemma TermBounded(p: Params, angle: real, field: Field)
    requires -1.0 <= Sine(field, Phase(p, angle)) <= 1.0 && 0.0 <= p.amp
    ensures -0.2 * p.amp <= Term(p, angle, field) <= 0.2 * p.amp
  {
    ScaledSine(Sine(field, Phase(p, angle)), p.amp);
  }

  lemma ScaledSine(s: real, a: real)
    requires -1.0 <= s <= 1.0 && 0.0 <= a
    ensures -0.2 * a <= Scaled(s, a) <= 0.2 * a
  {
    MulNonNeg(1.0 - s, a);
    MulNonNeg(1.0 + s, a);
    assert (1.0 - s) * a == a - s * a;
    assert (1.0 + s) * a == a + s * a;
  }

  /** The angle of point i: map(i, 0, pointTotal, 0, TWO_PI). */
  function Angle(i: nat, pointTotal: int): real
    requires pointTotal != 0
  {
    Map(i as real, 0.0, pointTotal as real, 0.0, TWO_PI)
  }

  /** Point i of the wave: x spread over the window's width, y the wave's sum scaled onto a quarter of its height. */
  function WavePoint(ps: seq<Params>, i: nat, pointTotal: int, screen: Screen, field: Field): Point
    requires 0 < pointTotal
  {
    var sum := WaveSum(ps, Angle(i, pointTotal), field);
    Point(XAt(i, pointTotal, screen.width), Map(sum, -1.0, 1.0, -screen.height / 4.0, screen.height / 4.0))
  }

  /** The x of point i: map(i, 0, pointTotal + 1, 0, innerWidth). */
  function XAt(i: nat, pointTotal: nat, width: real): real
  {
    Map(i as real, 0.0, (pointTotal + 1) as real, 0.0, width)
  }

  /** The points of one frame lie from left to right across the window, from x = 0 to short of its right edge. */
  lemma PointsSpanWidth(ps: seq<Params>, i: nat, j: nat, pointTotal: int, screen: Screen, field: Field)
    requires 0 < pointTotal && 0.0 < screen.width
    requires i < j <= pointTotal
    ensures WavePoint(ps, 0, pointTotal, screen, field).x == 0.0
    ensures WavePoint(ps, i, pointTotal, screen, field).x < WavePoint(ps, j, pointTotal, screen, field).x
    ensures WavePoint(ps, j, pointTotal, screen, field).x < screen.width
  {
    XSpan(i, j, pointTotal, screen.width);
  }

  lemma XSpan(i: nat, j: nat, pointTotal: nat, w: real)
    requires 0.0 < w && i < j <= pointTotal
    ensures XAt(0, pointTotal, w) == 0.0
    ensures XAt(i, pointTotal, w) < XAt(j, pointTotal, w) < w
  {
    var n := (pointTotal + 1) as real;
    var ti, tj := i as real / n, j as real / n;
    assert XAt(i, pointTotal, w) == ti * w;
    assert XAt(j, pointTotal, w) == tj * w;
    FractionGrows(i as real, j as real, n);
    Fraction(j as real, n);
    MulPos(tj - ti, w);
    MulPos(1.0 - tj, w);
  }

  /** A JavaScript array of points that update overwrites and may lengthen. */
  class PointBuffer {
    var points: seq<Point>

    /** new Array(n) with every entry set to [0, 0]. */
    constructor Zeros(n: int)
      ensures |points| == if n < 0 then 0 else n
      ensures forall k :: 0 <= k < |points| ==> points[k] == Point(0.0, 0.0)
    {
      var zeros := [];
      var j := 0;
      while j < n
        invariant 0 <= j && |zeros| == j
        invariant n < 0 ==> j == 0
        invariant 0 <= n ==> j <= n
        invariant forall k :: 0 <= k < |zeros| ==> zeros[k] == Point(0.0, 0.0)
      {
        zeros := zeros + [Point(0.0, 0.0)];
        j := j + 1;
      }
      points := zeros;
    }

    /** points[i] = p, where i is at most the length: an entry overwritten, or one appended. */
    method Put(i: nat, p: Point)
      requires i <= |points|
      modifies this
      ensures points == if i < |old(points)| then old(points)[i := p] else old(points) + [p]
    {
      if i < |points| {
        points := points[i := p];
      } else {
        points := points + [p];
      }
    }
  }

  class Waves {
    const res: real
    const pointTotal: int
    var components: seq<Component>
    var currentParams: seq<Params>

    /** new Waves(resolution): twice as many points as the window is resolutions wide. */
    constructor (resolution: real, screen: Screen)
      requires resolution != 0.0
      ensures res == resolution && pointTotal == (screen.width / resolution * 2.0).Floor
      ensures components == [] && currentParams == []
    {
      res := resolution;
      pointTotal := (screen.width / resolution * 2.0).Floor;
      components := [];
      currentParams := [];
    }

    /** init(): six fresh components, each drawn from its ranges with eight calls to random. */
    method Init(rng: Entropy.Rng)
      modifies this`components, rng`uniformsDrawn
      ensures |components| == WAVE_COARSE_COMPONENTS
      ensures rng.uniformsDrawn == old(rng.uniformsDrawn) + 8 * WAVE_COARSE_COMPONENTS
      ensures forall k :: 0 <= k < |components| ==> components[k] == Drawing(k, rng.uniform, old(rng.uniformsDrawn) + 8 * k)
      ensures rng.Valid() ==> forall k :: 0 <= k < |components| ==> Drawn(components[k], k)
    {
      components := [];
      var i := 0;
      while i < WAVE_COARSE_COMPONENTS
        invariant 0 <= i <= WAVE_COARSE_COMPONENTS && |components| == i
        invariant rng.uniformsDrawn == old(rng.uniformsDrawn) + 8 * i
        invariant forall k :: 0 <= k < |components| ==> components[k] == Drawing(k, rng.uniform, old(rng.uniformsDrawn) + 8 * k)
        invariant rng.Valid() ==> forall k :: 0 <= k < |components| ==> Drawn(components[k], k)
      {
        var c := DrawComponent(i, rng);
        components := components + [c];
        i := i + 1;
      }
    }

    /** The object literal pushed by init for component i, its fields drawn in the order written. */
    static method DrawComponent(i: int, rng: Entropy.Rng) returns (c: Component)
      modifies rng`uniformsDrawn
      ensures rng.uniformsDrawn == old(rng.uniformsDrawn) + 8
      ensures c == Drawing(i, rng.uniform, old(rng.uniformsDrawn))
      ensures rng.Valid() ==> Drawn(c, i)
    {
      ghost var n := rng.uniformsDrawn;
      var baseFreq := rng.Random(0.2, 6.0);
      var baseAmp := rng.Random(0.4, 3.0);
      var basePhase := rng.Random(0.0, TWO_PI);
      var freqVariation;
      if i == 0 {
        freqVariation := rng.Random(2.0, 6.0);
      } else {
        freqVariation := rng.Random(0.5, 2.0);
      }
      var ampVariation := rng.Random(0.2, 0.4);
      var phaseVariation := rng.Random(-TWO_PI, TWO_PI);
      var noiseOffset := rng.Random(0.0, 1000.0);
      var noiseSpeed := rng.Random(0.005, 0.097);
      c := Component(baseFreq, baseAmp, basePhase, freqVariation, ampVariation, phaseVariation, noiseOffset, noiseSpeed);
      DrawingInRanges(i, rng, n);
    }

    /** A valid stream draws every field of a component inside its range. */
    static lemma DrawingInRanges(i: int, rng: Entropy.Rng, n: nat)
      ensures rng.Valid() ==> Drawn(Drawing(i, rng.uniform, n), i)
    {
      if rng.Valid() {
        var u := rng.uniform;
        assert 0.0 <= u(n) < 1.0 && 0.0 <= u(n + 1) < 1.0 && 0.0 <= u(n + 2) < 1.0 && 0.0 <= u(n + 3) < 1.0;
        assert 0.0 <= u(n + 4) < 1.0 && 0.0 <= u(n + 5) < 1.0 && 0.0 <= u(n + 6) < 1.0 && 0.0 <= u(n + 7) < 1.0;
      }
    }

    /** The forEach over currentParams: the terms of every component at this angle, added in order. */
    method SumAt(angle: real, field: Field) returns (sum: real)
      ensures sum == WaveSum(currentParams, angle, field)
    {
      sum := 0.0;
      var k := 0;
      while k < |currentParams|
        invariant 0 <= k <= |currentParams|
        invariant sum == WaveSum(currentParams[..k], angle, field)
      {
        assert currentParams[..k + 1][..k] == currentParams[..k];
        sum := sum + Term(currentParams[k], angle, field);
        k := k + 1;
      }
      assert currentParams[..k] == currentParams;
    }

    /** One pass of update's loop: point i computed from the current parameters and written into the buffer. */
    method WritePoint(buffer: PointBuffer, i: nat, screen: Screen, field: Field)
      requires 0 < pointTotal && i <= |buffer.points|
      modifies buffer
      ensures buffer.points == if i < |old(buffer.points)|
        then old(buffer.points)[i := WavePoint(currentParams, i, pointTotal, screen, field)]
        else old(buffer.points) + [WavePoint(currentParams, i, pointTotal, screen, field)]
    {
      var sum := SumAt(Angle(i, pointTotal), field);
      var p := Point(
        XAt(i, pointTotal, screen.width),
        Map(sum, -1.0, 1.0, -screen.height / 4.0, screen.height / 4.0));
      buffer.Put(i, p);
    }

    /**
     * update(points): the frame's parameters, then points 0 to pointTotal
     * written in turn. A buffer shorter than pointTotal + 1 grows to that
     * length (one preallocated with pointTotal entries gains one); entries
     * past pointTotal are left alone.
     */
    method Update(buffer: PointBuffer, screen: Screen, field: Field)
      requires 0 < pointTotal && screen.width != 0.0 && screen.height != 0.0
      modifies this`currentParams, buffer
      ensures currentParams == CurrentParams(components, screen, field)
      ensures |buffer.points| == if |old(buffer.points)| < pointTotal + 1 then pointTotal + 1 else |old(buffer.points)|
      ensures forall i :: 0 <= i <= pointTotal ==> buffer.points[i] == WavePoint(currentParams, i, pointTotal, screen, field)
      ensures forall i :: pointTotal < i < |buffer.points| ==> buffer.points[i] == old(buffer.points[i])
    {
      currentParams := CurrentParams(components, screen, field);
      var i := 0;
      while i < pointTotal + 1
        invariant 0 <= i <= pointTotal + 1
        invariant currentParams == CurrentParams(components, screen, field)
        invariant |buffer.points| == if |old(buffer.points)| < i then i else |old(buffer.points)|
        invariant forall k :: 0 <= k < i ==> buffer.points[k] == WavePoint(currentParams, k, pointTotal, screen, field)
        invariant forall k :: i <= k < |buffer.points| ==> buffer.points[k] == old(buffer.points[k])
      {
        WritePoint(buffer, i, screen, field);
        i := i + 1;
      }
    }
  }

  /** The slot recall(n) reads: ((idx - n) % size + size) % size with JavaScript's `%`. */
  function RecallIndex(idx: int, n: int, size: int): (r: int)
    requires 0 < size
    ensures 0 <= r < size && r == (idx - n) % size
  {
    ModAgrees(idx - n, size);
    Mod(idx - n, size)
  }

  /** The index after advance(): (idx + 1) % size. */
  function Advanced(idx: int, size: int): int
    requires 0 < size
  {
    Rem(idx + 1, size)
  }

  /** The index after k captures. */
  function AdvancedBy(idx: int, k: nat, size: int): int
    requires 0 < size
  {
    if k == 0 then idx else Advanced(AdvancedBy(idx, k - 1, size), size)
  }

  /** From an index in range, k advances land k slots further on, around the ring. */
  lemma {:induction false} AdvancedByWraps(idx: int, k: nat, size: int)
    requires 0 <= idx < size
    ensures AdvancedBy(idx, k, size) == (idx + k) % size
  {
    if k == 0 {
      ModOnce(idx, size);
    } else {
      AdvancedByWraps(idx, k - 1, size);
      ModSucc(idx + k - 1, size);
    }
  }

  /** Reducing a value below twice the modulus takes the modulus off at most once. */
  lemma ModOnce(x: int, m: int)
    requires 0 <= x < 2 * m
    ensures x % m == if x < m then x else x - m
  {
    if x < m {
      DivModUnique(x, m, 0, x);
    } else {
      DivModUnique(x, m, 1, x - m);
    }
  }

  /** Stepping the reduced value is stepping the value, reduced. */
  lemma ModSucc(a: int, m: int)
    requires 0 <= a && 0 < m
    ensures (a % m + 1) % m == (a + 1) % m
  {
    var q, r := a / m, a % m;
    assert a == m * q + r;
    ModOnce(r + 1, m);
    if r + 1 < m {
      DivModUnique(a + 1, m, q, r + 1);
    } else {
      assert a + 1 == m * (q + 1) + 0;
      DivModUnique(a + 1, m, q + 1, 0);
    }
  }

  /** After a capture, recall(0) reads the slot just rewritten. */
  lemma RecallZeroIsNewest(idx: int, size: int)
    requires 0 <= idx < size
    ensures RecallIndex(idx, 0, size) == idx
  {
    ModOnce(idx, size);
  }

  /**
   * The echo: after k <= size - 1 captures, recall(k) reads the slot
   * recall(0) read before them, and none of those captures rewrote it.
   */
  lemma Echo(idx: int, k: nat, size: int)
    requires 0 <= idx < size && k < size
    ensures RecallIndex(AdvancedBy(idx, k, size), k, size) == RecallIndex(idx, 0, size)
    ensures forall m :: 1 <= m <= k ==> AdvancedBy(idx, m, size) != idx
  {
    AdvancedByWraps(idx, k, size);
    ModOnce(idx + k, size);
    RecallZeroIsNewest(idx, size);
    if size <= idx + k {
      DivModUnique(idx - size, size, -1, idx);
    }
    forall m | 1 <= m <= k
      ensures AdvancedBy(idx, m, size) != idx
    {
      AdvancedByWraps(idx, m, size);
      ModOnce(idx + m, size);
    }
  }

  /**
   * draw's echoes: recall(floor(map(i, 0, numWaves, 0, size - 1))) for
   * 0 <= i < numWaves asks for an index in [0, size - 1], so it never throws.
   */
  lemma DrawRecallsInRange(i: nat, numWaves: nat, size: int)
    requires i < numWaves && 1 <= size
    ensures 0 <= Map(i as real, 0.0, numWaves as real, 0.0, (size - 1) as real).Floor < size
  {
    var t := i as real / numWaves as real;
    assert Map(i as real, 0.0, numWaves as real, 0.0, (size - 1) as real) == t * (size - 1) as real;
    Fraction(i as real, numWaves as real);
    FractionOf(t, (size - 1) as real);
  }

  /** The ring buffer of the last `size` frames' point lists. */
  class History {
    const wave: Waves
    const size: int
    const history: seq<PointBuffer>
    var idx: int

    /** Each slot its own list, idx in range. */
    ghost predicate Valid()
      reads this
    {
      && 0 < size && |history| == size && 0 <= idx < size
      && (forall k, l :: 0 <= k < l < size ==> history[k] != history[l])
    }

    /**
     * new History(size, wave): size lists of pointTotal zero points, each
     * then filled by wave.update, so each holds the current frame's
     * pointTotal + 1 points.
     */
    constructor (size: int, wave: Waves, screen: Screen, field: Field)
      requires 0 < size ==> 0 < wave.pointTotal && screen.width != 0.0 && screen.height != 0.0
      modifies wave`currentParams
      ensures this.size == size && this.wave == wave && idx == 0
      ensures 0 < size ==> Valid()
      ensures |history| == if size < 0 then 0 else size
      ensures forall k :: 0 <= k < |history| ==> fresh(history[k])
      ensures 0 < size ==> wave.currentParams == CurrentParams(wave.components, screen, field)
      ensures forall k :: 0 <= k < |history| ==> |history[k].points| == wave.pointTotal + 1
      ensures forall k, i :: 0 <= k < |history| && 0 <= i <= wave.pointTotal ==>
        history[k].points[i] == WavePoint(wave.currentParams, i, wave.pointTotal, screen, field)
    {
      var buffers: seq<PointBuffer> := [];
      var i := 0;
      while i < size
        invariant 0 <= i && |buffers| == i
        invariant size < 0 ==> i == 0
        invariant 0 <= size ==> i <= size
        invariant forall k :: 0 <= k < |buffers| ==> fresh(buffers[k]) && |buffers[k].points| == wave.pointTotal
        invariant forall k, l :: 0 <= k < l < |buffers| ==> buffers[k] != buffers[l]
      {
        var b := new PointBuffer.Zeros(wave.pointTotal);
        buffers := buffers + [b];
        i := i + 1;
      }
      this.wave := wave;
      this.size := size;
      history := buffers;
      idx := 0;
      new;
      var j := 0;
      while j < |history|
        invariant 0 <= j <= |history| && idx == 0
        invariant forall k, l :: 0 <= k < l < |history| ==> history[k] != history[l]
        invariant forall k :: 0 <= k < |history| ==> fresh(history[k])
        invariant forall k :: j <= k < |history| ==> |history[k].points| == wave.pointTotal
        invariant 0 < j ==> wave.currentParams == CurrentParams(wave.components, screen, field)
        invariant forall k :: 0 <= k < j ==> |history[k].points| == wave.pointTotal + 1
        invariant forall k, i :: 0 <= k < j && 0 <= i <= wave.pointTotal ==>
          history[k].points[i] == WavePoint(wave.currentParams, i, wave.pointTotal, screen, field)
      {
        wave.Update(history[j], screen, field);
        j := j + 1;
      }
    }

    /** advance(): idx moves one slot on, wrapping at size. */
    method Advance()
      requires Valid()
      modifies this`idx
      ensures Valid()
      ensures idx == Advanced(old(idx), size) == (old(idx) + 1) % size
    {
      idx := Rem(idx + 1, size);
    }

    /** capture(): advance, then refill the new slot with the wave's current frame; no other slot changes. */
    method Capture(screen: Screen, field: Field)
      requires Valid() && 0 < wave.pointTotal && screen.width != 0.0 && screen.height != 0.0
      modifies this`idx, wave`currentParams, history
      ensures Valid()
      ensures idx == Advanced(old(idx), size)
      ensures wave.currentParams == CurrentParams(wave.components, screen, field)
      ensures var slot := history[idx]; |slot.points| == if |old(slot.points)| < wave.pointTotal + 1 then wave.pointTotal + 1 else |old(slot.points)|
      ensures forall i :: 0 <= i <= wave.pointTotal ==>
        history[idx].points[i] == WavePoint(wave.currentParams, i, wave.pointTotal, screen, field)
      ensures forall k :: 0 <= k < size && k != idx ==> history[k].points == old(history[k].points)
    {
      Advance();
      wave.Update(history[idx], screen, field);
    }

    /** recall(n): throws when n >= size; otherwise the list n captures back from the newest. */
    function Recall(n: int): (r: Result<PointBuffer>)
      requires Valid()
      reads this
      ensures r.Err? <==> size <= n
      ensures r.Ok? ==> r.value == history[(idx - n) % size]
    {
      if n >= size then Err("out of bounds") else Ok(history[RecallIndex(idx, n, size)])
    }
  }
}
