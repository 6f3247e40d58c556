/**
 * The first planet sketch, src/experiments/planets.js: three planets pull
 * on each other pair by pair and leave a trail of their last 400
 * positions. Planet.update divides the force object it is given in place,
 * and the pair loop hands the same object on to the second planet: the
 * second planet of a pair is kicked by -f / (mA * mB), not -f / mB. The
 * classes follow the code as written (PairStep); IntendedPairStep is the
 * step with the copy the later sketches make.
 */
module PlanetsExample {
  import opened RealFacts
  import opened Vectors
  import opened Common
  import opened Pairs
  import Planets2Physics
  import Entropy

  type Mass = Planets2Physics.Mass

  const NUM_PLANETS: nat := 3
  /** The number of past positions a trail keeps. */
  const TRAIL_MAX: nat := 400

  /** A planet's state: what gravitate and update read and write. */
  datatype Body = Body(mass: Mass, pos: Vec, vel: Vec, trail: seq<Vec>, immovable: bool)

  /** A trail as draw finds it: never empty and never longer than TRAIL_MAX. */
  predicate TrailOk(b: Body)
  {
    1 <= |b.trail| <= TRAIL_MAX
  }

  /** trail.slice(trail.length - max) when the trail is longer than max: the newest max entries. */
  function Window<T>(s: seq<T>, max: nat): (r: seq<T>)
    ensures |r| == if |s| > max then max else |s|
    ensures r == s[|s| - |r|..]
  {
    if |s| > max then s[|s| - max..] else s
  }

  /**
   * Trimming as you go is trimming once at the end: a trail that is
   * windowed after every push holds the newest entries of everything ever
   * pushed.
   */
  lemma WindowAppend<T>(s: seq<T>, x: T, max: nat)
    requires 1 <= max
    ensures Window(Window(s, max) + [x], max) == Window(s + [x], max)
  {
    var w := Window(s, max);
    var l, r := Window(w + [x], max), Window(s + [x], max);
    assert |l| == |r|;
    forall k | 0 <= k < |l| ensures l[k] == r[k] {
      if k == |l| - 1 {
        assert l[k] == x == r[k];
      } else {
        assert l[k] == (w + [x])[|w| + 1 - |l| + k] == w[|w| + 1 - |l| + k];
        assert r[k] == (s + [x])[|s| + 1 - |r| + k] == s[|s| + 1 - |r| + k];
      }
    }
  }

  /** Trimming a trimmed trail changes nothing. */
  lemma WindowTwice<T>(s: seq<T>, max: nat)
    ensures Window(Window(s, max), max) == Window(s, max)
  {
  }

  /** The trail after the positions ps are pushed one update at a time. */
  function Pushed<T>(trail: seq<T>, ps: seq<T>, max: nat): seq<T>
    decreases |ps|
  {
    if ps == [] then trail else Pushed(Window(trail + [ps[0]], max), ps[1..], max)
  }

  /** After any run of updates a trail is the newest TRAIL_MAX of all positions pushed onto it. */
  lemma {:induction false} PushedIsWindow<T>(trail: seq<T>, ps: seq<T>, max: nat)
    requires 1 <= max
    ensures Pushed(Window(trail, max), ps, max) == Window(trail + ps, max)
    decreases |ps|
  {
    if ps == [] {
      assert trail + ps == trail;
      WindowTwice(trail, max);
    } else {
      var x, rest := ps[0], ps[1..];
      calc {
        Pushed(Window(trail, max), ps, max);
        Pushed(Window(Window(trail, max) + [x], max), rest, max);
        { WindowAppend(trail, x, max); }
        Pushed(Window(trail + [x], max), rest, max);
        { PushedIsWindow(trail + [x], rest, max); }
        Window(trail + [x] + rest, max);
        { assert trail + [x] + rest == trail + ps; }
        Window(trail + ps, max);
      }
    }
  }

  /**
   * update(force) once force has been divided by the mass: the velocity
   * gains acc; the position before the move is pushed onto the trail,
   * which keeps its newest TRAIL_MAX entries; the position moves by the new
   * velocity times deltaTime / 1000.
   */
  function Updated(b: Body, acc: Vec, deltaTime: real): (r: Body)
    ensures r.mass == b.mass && r.immovable == b.immovable
    ensures r.vel == Add(b.vel, acc)
    ensures r.pos == Add(b.pos, Scale(r.vel, deltaTime / 1000.0))
    ensures TrailOk(b) ==> TrailOk(r)
  {
    var vel := Add(b.vel, acc);
    b.(vel := vel, trail := Window(b.trail + [b.pos], TRAIL_MAX), pos := Add(b.pos, Scale(vel, deltaTime / 1000.0)))
  }

  /**
   * An update ends the trail with the position before the move; a full
   * trail drops its oldest entry, any other trail just grows by one.
   */
  lemma UpdatedTrail(b: Body, acc: Vec, deltaTime: real)
    ensures var r := Updated(b, acc, deltaTime);
      && |r.trail| >= 1 && r.trail[|r.trail| - 1] == b.pos
      && (|b.trail| < TRAIL_MAX ==> r.trail == b.trail + [b.pos])
      && (|b.trail| == TRAIL_MAX ==> r.trail == b.trail[1..] + [b.pos])
  {
    var t := b.trail + [b.pos];
    if |b.trail| == TRAIL_MAX {
      assert t[|t| - TRAIL_MAX..] == b.trail[1..] + [b.pos];
    }
  }

  /**
   * One pass of draw's inner loop as written, on planets a and b: the pull
   * f of a towards b; a, unless immovable, divides the force object by its
   * mass in place and is kicked by f / mA; then b, unless immovable, is
   * updated with that same object times -1, so it is kicked by
   * -f / (mA * mB) when a moved and by -f / mB when it did not.
   */
  function Interact(a: Body, b: Body, deltaTime: real): (r: (Body, Body))
    ensures r.0.mass == a.mass && r.0.immovable == a.immovable && r.1.mass == b.mass && r.1.immovable == b.immovable
    ensures a.immovable ==> r.0 == a
    ensures b.immovable ==> r.1 == b
    ensures var f := Planets2Physics.Pull(a.pos, b.pos, a.mass, b.mass);
      && (!a.immovable ==> Momentum(r.0) == Add(Momentum(a), f))
      && (!b.immovable ==> Momentum(r.1) == Sub(Momentum(b), if a.immovable then f else Div(f, a.mass)))
  {
    var f := Planets2Physics.Pull(a.pos, b.pos, a.mass, b.mass);
    var left := if a.immovable then f else Div(f, a.mass);
    KickAddsForce(a, f, deltaTime);
    KickAddsForce(b, Scale(left, -1.0), deltaTime);
    (if a.immovable then a else Updated(a, Div(f, a.mass), deltaTime),
     if b.immovable then b else Updated(b, Div(Scale(left, -1.0), b.mass), deltaTime))
  }

  /** The pass on the pair (i, j) of the planet list. */
  function PairStep(bs: seq<Body>, i: nat, j: nat, deltaTime: real): (r: seq<Body>)
    requires i < j < |bs|
    ensures |r| == |bs|
  {
    var (a, b) := Interact(bs[i], bs[j], deltaTime);
    bs[i := a][j := b]
  }

  /** The step with the force copied for the first planet, as the later sketches do it: j is kicked by -f / mB. */
  function IntendedPairStep(bs: seq<Body>, i: nat, j: nat, deltaTime: real): (r: seq<Body>)
    requires i < j < |bs|
    ensures |r| == |bs|
  {
    var a, b := bs[i], bs[j];
    var f := Planets2Physics.Pull(a.pos, b.pos, a.mass, b.mass);
    bs[i := if a.immovable then a else Updated(a, Div(f, a.mass), deltaTime)]
      [j := if b.immovable then b else Updated(b, Div(Scale(f, -1.0), b.mass), deltaTime)]
  }

  /** Momentum, mass times velocity. */
  function Momentum(b: Body): Vec
  {
    Scale(b.vel, b.mass)
  }

  /** A velocity change of f / m adds exactly f to the momentum. */
  lemma KickAddsForce(b: Body, f: Vec, deltaTime: real)
    ensures Momentum(Updated(b, Div(f, b.mass), deltaTime)) == Add(Momentum(b), f)
  {
    DivMulCancel(f.x, b.mass);
    DivMulCancel(f.y, b.mass);
  }

  /**
   * As written, a pair of movable planets gains momentum f - f / mA in
   * total: planet i gains f and planet j loses only f / mA.
   */
  lemma PairStepMomentum(bs: seq<Body>, i: nat, j: nat, deltaTime: real)
    requires i < j < |bs| && !bs[i].immovable && !bs[j].immovable
    ensures var r := PairStep(bs, i, j, deltaTime);
      var f := Planets2Physics.Pull(bs[i].pos, bs[j].pos, bs[i].mass, bs[j].mass);
      Add(Momentum(r[i]), Momentum(r[j]))
        == Add(Add(Momentum(bs[i]), Momentum(bs[j])), Sub(f, Div(f, bs[i].mass)))
  {
    var a, b := bs[i], bs[j];
    var f := Planets2Physics.Pull(a.pos, b.pos, a.mass, b.mass);
    var left := Scale(Div(f, a.mass), -1.0);
    var r := PairStep(bs, i, j, deltaTime);
    assert r[i] == Updated(a, Div(f, a.mass), deltaTime);
    assert r[j] == Updated(b, Div(left, b.mass), deltaTime);
    KickAddsForce(a, f, deltaTime);
    KickAddsForce(b, left, deltaTime);
  }

  /**
   * As written, momentum survives a pair step of two movable planets at
   * different places exactly when the first planet's mass is 1.
   */
  lemma PairStepConservesIff(bs: seq<Body>, i: nat, j: nat, deltaTime: real)
    requires i < j < |bs| && !bs[i].immovable && !bs[j].immovable
    requires NormSq(Sub(bs[j].pos, bs[i].pos)) != 0.0
    ensures var r := PairStep(bs, i, j, deltaTime);
      (Add(Momentum(r[i]), Momentum(r[j])) == Add(Momentum(bs[i]), Momentum(bs[j])))
        <==> bs[i].mass == 1.0
  {
    var a, b := bs[i], bs[j];
    var f := Planets2Physics.Pull(a.pos, b.pos, a.mass, b.mass);
    PairStepMomentum(bs, i, j, deltaTime);
    Planets2Physics.PullNonZero(a.pos, b.pos, a.mass, b.mass);
    ExcessIsZeroIff(f, a.mass);
  }

  /** f - f / m vanishes, for a non-zero f, exactly when m is 1. */
  lemma ExcessIsZeroIff(f: Vec, m: Mass)
    requires f != Zero
    ensures Sub(f, Div(f, m)) == Zero <==> m == 1.0
  {
    if f.x != 0.0 {
      if f.x / m == f.x {
        OnlyUnitFixes(f.x, m);
      }
    } else if f.y / m == f.y {
      OnlyUnitFixes(f.y, m);
    }
  }

  /** Dividing a non-zero number by m leaves it as it is only for m == 1. */
  lemma OnlyUnitFixes(a: real, m: real)
    requires a != 0.0 && m != 0.0 && a / m == a
    ensures m == 1.0
  {
    calc {
      m;
      == (a / a) * m;
      == (a * m) / a;
      == ((a / m) * m) / a;
      == { DivMulCancel(a, m); }
      a / a;
      == 1.0;
    }
  }

  /** Two planets of masses 2 and 1, a unit apart, both movable: the step as written does not conserve momentum. */
  lemma PairStepCounterexample()
    ensures var bs := [Body(2.0, Vec(0.0, 0.0), Zero, [Vec(0.0, 0.0)], false), Body(1.0, Vec(1.0, 0.0), Zero, [Vec(1.0, 0.0)], false)];
      var r := PairStep(bs, 0, 1, 16.0);
      Add(Momentum(r[0]), Momentum(r[1])) != Add(Momentum(bs[0]), Momentum(bs[1]))
  {
    var bs := [Body(2.0, Vec(0.0, 0.0), Zero, [Vec(0.0, 0.0)], false), Body(1.0, Vec(1.0, 0.0), Zero, [Vec(1.0, 0.0)], false)];
    assert NormSq(Sub(bs[1].pos, bs[0].pos)) == 1.0;
    PairStepConservesIff(bs, 0, 1, 16.0);
  }

  /** With the copy, every pair step of two movable planets conserves their total momentum. */
  lemma IntendedConservesMomentum(bs: seq<Body>, i: nat, j: nat, deltaTime: real)
    requires i < j < |bs| && !bs[i].immovable && !bs[j].immovable
    ensures var r := IntendedPairStep(bs, i, j, deltaTime);
      Add(Momentum(r[i]), Momentum(r[j])) == Add(Momentum(bs[i]), Momentum(bs[j]))
  {
    var a, b := bs[i], bs[j];
    var f := Planets2Physics.Pull(a.pos, b.pos, a.mass, b.mass);
    var r := IntendedPairStep(bs, i, j, deltaTime);
    assert r[i] == Updated(a, Div(f, a.mass), deltaTime);
    assert r[j] == Updated(b, Div(Scale(f, -1.0), b.mass), deltaTime);
    KickAddsForce(a, f, deltaTime);
    KickAddsForce(b, Scale(f, -1.0), deltaTime);
  }

  /** A pair step touches only its two planets, and no immovable one. */
  lemma PairStepFrame(bs: seq<Body>, i: nat, j: nat, deltaTime: real)
    requires i < j < |bs|
    ensures var r := PairStep(bs, i, j, deltaTime);
      && (forall k :: 0 <= k < |bs| && k != i && k != j ==> r[k] == bs[k])
      && (forall k :: 0 <= k < |bs| ==> r[k].mass == bs[k].mass && r[k].immovable == bs[k].immovable)
      && (forall k :: 0 <= k < |bs| && bs[k].immovable ==> r[k] == bs[k])
      && (forall k :: 0 <= k < |bs| && TrailOk(bs[k]) ==> TrailOk(r[k]))
  {
  }

  /** A pair step as the loops' proofs see it: a function that agrees with PairStep wherever PairStep is asked for. */
  ghost predicate Repeats(step: Step<Body>, deltaTime: real)
  {
    forall s: seq<Body>, i: nat, j: nat {:trigger PairStep(s, i, j, deltaTime)} ::
      i < j < |s| ==> step(s, i, j) == PairStep(s, i, j, deltaTime)
  }

  /** The pair step of a frame, as a function value; pairs out of range are passed over. */
  function StepOf(deltaTime: real): (step: Step<Body>)
    ensures Repeats(step, deltaTime)
  {
    (s: seq<Body>, i: nat, j: nat) => if i < j < |s| then PairStep(s, i, j, deltaTime) else s
  }

  /** The planets after the pair loop of one frame: every pair visited once, in the loops' order. */
  function Frame(bs: seq<Body>, deltaTime: real): (r: seq<Body>)
    ensures |r| == |bs|
    ensures forall k :: 0 <= k < |bs| ==> r[k].mass == bs[k].mass && r[k].immovable == bs[k].immovable
    ensures forall k :: 0 <= k < |bs| && bs[k].immovable ==> r[k] == bs[k]
    ensures forall k :: 0 <= k < |bs| && TrailOk(bs[k]) ==> TrailOk(r[k])
  {
    LoopKeepsTrails(bs, AllPairs(|bs|), deltaTime);
    Fold(bs, AllPairs(|bs|), StepOf(deltaTime))
  }

  /**
   * The pair loop keeps every trail between 1 and TRAIL_MAX entries long,
   * changes no mass or flag and leaves immovable planets as they were.
   */
  lemma {:induction false} LoopKeepsTrails(bs: seq<Body>, ps: seq<(nat, nat)>, deltaTime: real)
    ensures var r := Fold(bs, ps, StepOf(deltaTime));
      && |r| == |bs|
      && (forall k :: 0 <= k < |bs| ==> r[k].mass == bs[k].mass && r[k].immovable == bs[k].immovable)
      && (forall k :: 0 <= k < |bs| && bs[k].immovable ==> r[k] == bs[k])
      && (forall k :: 0 <= k < |bs| && TrailOk(bs[k]) ==> TrailOk(r[k]))
    decreases |ps|
  {
    if ps != [] {
      var (i, j) := ps[0];
      var next := StepOf(deltaTime)(bs, i, j);
      if i < j < |bs| {
        PairStepFrame(bs, i, j, deltaTime);
      }
      LoopKeepsTrails(next, ps[1..], deltaTime);
    }
  }

  /**
   * The physical states of a list of planets. Each sketch has its own
   * Planet class and Body type, so each module defines its own States.
   */
  ghost function States(ps: seq<Planet>): (r: seq<Body>)
    reads ps
    ensures |r| == |ps| && forall k :: 0 <= k < |ps| ==> r[k] == ps[k].State()
  {
    seq(|ps|, k requires 0 <= k < |ps| reads ps => ps[k].State())
  }

  /** The p5 vector gravitate returns and update divides in place. */
  class Force {
    var v: Vec

    constructor (v: Vec)
      ensures this.v == v
    {
      this.v := v;
    }

    /** div(k), in place. */
    method DivBy(k: Mass)
      modifies this
      ensures v == Div(old(v), k)
    {
      v := Div(v, k);
    }

    /** mult(k), in place. */
    method MulBy(k: real)
      modifies this
      ensures v == Scale(old(v), k)
    {
      v := Scale(v, k);
    }
  }

  class Planet {
    const mass: Mass
    var pos: Vec
    var vel: Vec
    var trail: seq<Vec>
    const immovable: bool

    function State(): Body
      reads this
    {
      Body(mass, pos, vel, trail, immovable)
    }

    /** new Planet(mass, color, startPos, immovable): at rest, its trail holding its start. The colour is left out. */
    constructor (mass: Mass, startPos: Vec, immovable: bool)
      ensures State() == Body(mass, startPos, Zero, [startPos], immovable)
      ensures TrailOk(State())
    {
      this.mass := mass;
      this.pos := startPos;
      this.vel := Zero;
      this.trail := [startPos];
      this.immovable := immovable;
    }

    /**
     * gravitate(other): a new force vector towards the other planet (see
     * Planets2Physics.Pull; r2 is the squared distance). Nothing else
     * changes.
     */
    method Gravitate(other: Planet) returns (f: Force)
      ensures fresh(f)
      ensures f.v == Planets2Physics.Pull(pos, other.pos, mass, other.mass)
    {
      var d := Sub(other.pos, pos);
      var r2 := NormSq(d);
      if r2 == 0.0 {
        f := new Force(d);
      } else {
        var factor := Planets2Physics.GRAVITY * mass * other.mass / r2;
        f := new Force(Scale(d, factor));
      }
    }

    /** update(force): divides force by the mass in place, then see Updated. */
    method Update(force: Force, deltaTime: real)
      modifies this`vel, this`trail, this`pos, force
      ensures force.v == Div(old(force.v), mass)
      ensures State() == Updated(old(State()), force.v, deltaTime)
    {
      force.DivBy(mass);
      var acc := force.v;
      vel := Add(vel, acc);
      trail := trail + [pos];
      if |trail| > TRAIL_MAX {
        trail := trail[|trail| - TRAIL_MAX..];
      }
      pos := Add(pos, Scale(vel, deltaTime / 1000.0));
    }
  }

  /** The closure state of the sketch. */
  class Sketch {
    const width: real
    const height: real
    var planets: seq<Planet>

    /** No planet is listed twice. */
    ghost predicate Valid()
      reads this
    {
      Distinct(planets)
    }

    constructor (width: real, height: real)
      ensures this.width == width && this.height == height && planets == [] && Valid()
    {
      this.width := width;
      this.height := height;
      planets := [];
    }

    /**
     * setup: three planets of mass floor(random(1, 9)) at rest, at the
     * canvas centre plus 100 times ring(i) = (cos 120i, sin 120i)
     * (degrees), drawing three uniforms each (the mass, then the colour's
     * two). The canvas is left out.
     */
    method Setup(ring: nat -> Vec, rng: Entropy.Rng)
      requires planets == [] && rng.Valid()
      modifies this`planets, rng
      ensures |planets| == NUM_PLANETS && Valid()
      ensures rng.uniformsDrawn == old(rng.uniformsDrawn) + 3 * NUM_PLANETS
      ensures forall k :: 0 <= k < NUM_PLANETS ==>
        && fresh(planets[k]) && TrailOk(planets[k].State())
        && planets[k].State() == StartState(k, ring, Vec(width / 2.0, height / 2.0), rng.uniform(old(rng.uniformsDrawn) + 3 * k))
    {
      var i := 0;
      while i < NUM_PLANETS
        invariant 0 <= i <= NUM_PLANETS && |planets| == i
        invariant rng.uniformsDrawn == old(rng.uniformsDrawn) + 3 * i
        invariant forall k :: 0 <= k < i ==>
          && fresh(planets[k]) && TrailOk(planets[k].State())
          && planets[k].State() == StartState(k, ring, Vec(width / 2.0, height / 2.0), rng.uniform(old(rng.uniformsDrawn) + 3 * k))
        invariant Distinct(planets)
      {
        var p := NewPlanet(i, ring, rng);
        planets := planets + [p];
        i := i + 1;
      }
    }

    /** One pass of setup's loop: the mass, the colour's two draws, the planet. */
    method NewPlanet(i: nat, ring: nat -> Vec, rng: Entropy.Rng) returns (p: Planet)
      requires rng.Valid()
      modifies rng
      ensures fresh(p) && TrailOk(p.State())
      ensures p.State() == StartState(i, ring, Vec(width / 2.0, height / 2.0), rng.uniform(old(rng.uniformsDrawn)))
      ensures rng.uniformsDrawn == old(rng.uniformsDrawn) + 3
    {
      var r := rng.Random(1.0, 9.0);
      var _ := rng.Random(0.0, 255.0);
      var _ := rng.Random(20.0, 150.0);
      p := new Planet(FloorMass(r), Add(Scale(ring(i), 100.0), Vec(width / 2.0, height / 2.0)), false);
    }

    /** draw, rendering left out: the nested pair loop (see Frame). */
    method Draw(deltaTime: real)
      requires Valid()
      modifies planets
      ensures States(planets) == Frame(old(States(planets)), deltaTime)
    {
      ghost var step := StepOf(deltaTime);
      ghost var s0 := States(planets);
      var n := |planets|;
      var i := 0;
      ghost var cur := States(planets);
      while i < n - 1
        invariant 0 <= i <= n
        invariant cur == States(planets)
        invariant RowsFold(cur, i, n, step) == RowsFold(s0, 0, n, step)
      {
        PairsOf(i, deltaTime, step);
        cur := RowFold(cur, i, i + 1, n, step);
        i := i + 1;
      }
      RowsFoldIsFold(s0, 0, n, step);
    }

    /** The inner loop of draw, row i: planet i with every later planet. */
    method PairsOf(i: nat, deltaTime: real, ghost step: Step<Body>)
      requires Valid() && Repeats(step, deltaTime) && i < |planets|
      modifies planets
      ensures States(planets) == RowFold(old(States(planets)), i, i + 1, |planets|, step)
    {
      var n := |planets|;
      var j := i + 1;
      ghost var cur := States(planets);
      while j < n
        invariant i + 1 <= j <= n
        invariant cur == States(planets)
        invariant RowFold(cur, i, j, n, step) == RowFold(old(States(planets)), i, i + 1, n, step)
      {
        Pair(i, j, planets[i], planets[j], deltaTime, step);
        cur := step(cur, i, j);
        j := j + 1;
      }
    }

    /** One pass of the inner loop: see PairStep, which step repeats. */
    method Pair(i: nat, j: nat, a: Planet, b: Planet, deltaTime: real, ghost step: Step<Body>)
      requires Valid() && Repeats(step, deltaTime) && i < j < |planets| && a == planets[i] && b == planets[j]
      modifies a`pos, a`vel, a`trail, b`pos, b`vel, b`trail
      ensures States(planets) == step(old(States(planets)), i, j)
    {
      ghost var s := States(planets);
      ghost var r := PairStep(s, i, j, deltaTime);
      assert forall k :: 0 <= k < |planets| && k != i && k != j ==> planets[k] != a && planets[k] != b;
      InteractPlanets(a, b, deltaTime);
      assert forall k :: 0 <= k < |planets| && k != i && k != j ==> planets[k].State() == s[k] == r[k];
    }

    /** The body of the inner loop, on planets a and b: see Interact. */
    method InteractPlanets(a: Planet, b: Planet, deltaTime: real)
      requires a != b
      modifies a`pos, a`vel, a`trail, b`pos, b`vel, b`trail
      ensures (a.State(), b.State()) == Interact(old(a.State()), old(b.State()), deltaTime)
    {
      var force := a.Gravitate(b);
      if !a.immovable { a.Update(force, deltaTime); }
      if !b.immovable {
        force.MulBy(-1.0);
        b.Update(force, deltaTime);
      }
    }
  }

  /**
   * The i-th planet of setup, from the uniform draw u behind random(1, 9):
   * mass floor(1 + 8u), at centre plus 100 times ring(i), at rest, its trail
   * holding its start, movable.
   */
  function StartState(i: nat, ring: nat -> Vec, center: Vec, u: real): (b: Body)
    requires 0.0 <= u < 1.0
    ensures 1.0 <= b.mass <= 8.0 && b.mass == b.mass.Floor as real
    ensures !b.immovable && b.vel == Zero && b.trail == [b.pos] && TrailOk(b)
    ensures Sub(b.pos, center) == Scale(ring(i), 100.0)
  {
    Body(FloorMass(1.0 + u * 8.0), Add(Scale(ring(i), 100.0), center), Zero, [Add(Scale(ring(i), 100.0), center)], false)
  }
}
