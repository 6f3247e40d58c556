/**
 * The "Planets" sketch of src/experiments/06-planets.js: planets that pull
 * on each other pair by pair, each pull applied at once through
 * Planet.update with a velocity cap; a mouse planet that joins the physics
 * while the button is held; a double click that rings the planets around
 * the pointer. Planet and the sketch's closure state are classes; what one
 * frame does to the planets is specified on Body values by PairStep and
 * Frame.
 */
module Planets06 {
  import opened RealFacts
  import opened Vectors
  import opened Common
  import opened Pairs
  import Planets2Physics
  import Entropy

  type Mass = Planets2Physics.Mass

  const NUM_PLANETS: nat := 8
  /** The mouse planet's mass. */
  const MOUSE_MASS: Mass := 4.0
  /** Milliseconds during which a press is ignored after a double click. */
  const MOUSE_COOLDOWN: real := 1000.0
  /** maxVelocity before any click, while the button is held, and after it is released. */
  const START_MAX_VELOCITY: real := 1200.0
  const PRESSED_MAX_VELOCITY: real := 300.0
  const RELEASED_MAX_VELOCITY: real := 800.0

  /** The physical state of a planet: what gravitate and update read and write, and the flags draw tests. */
  datatype Body = Body(mass: Mass, pos: Vec, vel: Vec, immovable: bool, tangible: bool)

  /** The velocity update adds before the cap: force / mass. */
  function Kick(b: Body, force: Vec): Vec
  {
    Add(b.vel, Div(force, b.mass))
  }

  /**
   * Planet.update(force): the velocity gains force / mass, is capped at
   * maxVelocity, and the position moves by the capped velocity times
   * deltaTime / 3000. Nothing else changes.
   */
  function Move(b: Body, force: Vec, deltaTime: real, maxVelocity: real, dir: Vec -> Vec): (r: Body)
    requires IsDirection(dir)
    ensures r.mass == b.mass && r.immovable == b.immovable && r.tangible == b.tangible
    ensures NormSq(r.vel) <= maxVelocity * maxVelocity
    ensures NormSq(Kick(b, force)) <= maxVelocity * maxVelocity ==> r.vel == Kick(b, force)
    ensures r.pos == Add(b.pos, Scale(r.vel, deltaTime / 3000.0))
  {
    var vel := Limit(Kick(b, force), maxVelocity, dir);
    b.(vel := vel, pos := Add(b.pos, Scale(vel, deltaTime / (1000.0 * 3.0))))
  }

  /** Planets keep their mass and flags through a frame. */
  predicate SameKind(a: Body, b: Body)
  {
    a.mass == b.mass && a.immovable == b.immovable && a.tangible == b.tangible
  }

  /**
   * One pass of draw's inner loop, on pair (i, j): skipped unless both are
   * tangible; otherwise the pull f of i towards j is computed once, then
   * planet i, unless immovable, is updated with (a copy of) f and planet j,
   * unless immovable, with -f.
   */
  function PairStep(bs: seq<Body>, i: nat, j: nat, deltaTime: real, maxVelocity: real, dir: Vec -> Vec): (r: seq<Body>)
    requires i < j < |bs| && IsDirection(dir)
    ensures |r| == |bs|
  {
    var a, b := bs[i], bs[j];
    if !(a.tangible && b.tangible) then bs
    else
      var f := Planets2Physics.Pull(a.pos, b.pos, a.mass, b.mass);
      bs[i := if a.immovable then a else Move(a, f, deltaTime, maxVelocity, dir)]
        [j := if b.immovable then b else Move(b, Neg(f), deltaTime, maxVelocity, dir)]
  }

  /**
   * A pair step touches only its two planets, changes no planet's mass or
   * flags, does nothing unless both planets are tangible, and never moves
   * an immovable planet.
   */
  lemma PairStepFrame(bs: seq<Body>, i: nat, j: nat, deltaTime: real, maxVelocity: real, dir: Vec -> Vec)
    requires i < j < |bs| && IsDirection(dir)
    ensures var r := PairStep(bs, i, j, deltaTime, maxVelocity, dir);
      && (forall k :: 0 <= k < |bs| && k != i && k != j ==> r[k] == bs[k])
      && (forall k :: 0 <= k < |bs| ==> SameKind(r[k], bs[k]))
      && (!(bs[i].tangible && bs[j].tangible) ==> r == bs)
      && (bs[i].immovable ==> r[i] == bs[i])
      && (bs[j].immovable ==> r[j] == bs[j])
  {
  }

  /** A pair step as the loops' proofs see it: a function that agrees with PairStep wherever PairStep is asked for. */
  ghost predicate Repeats(step: Step<Body>, deltaTime: real, maxVelocity: real, dir: Vec -> Vec)
    requires IsDirection(dir)
  {
    forall s: seq<Body>, i: nat, j: nat {:trigger PairStep(s, i, j, deltaTime, maxVelocity, dir)} ::
      i < j < |s| ==> step(s, i, j) == PairStep(s, i, j, deltaTime, maxVelocity, dir)
  }

  /** The pair step of a frame, as a function value; pairs out of range are passed over. */
  function StepOf(deltaTime: real, maxVelocity: real, dir: Vec -> Vec): (step: Step<Body>)
    requires IsDirection(dir)
    ensures Repeats(step, deltaTime, maxVelocity, dir)
  {
    (s: seq<Body>, i: nat, j: nat) => if i < j < |s| then PairStep(s, i, j, deltaTime, maxVelocity, dir) else s
  }

  /** The planets after the pair loop of one frame: every pair visited once, in the loops' order. */
  function Frame(bs: seq<Body>, deltaTime: real, maxVelocity: real, dir: Vec -> Vec): (r: seq<Body>)
    requires IsDirection(dir)
    ensures |r| == |bs|
    ensures forall k :: 0 <= k < |bs| ==>
      SameKind(r[k], bs[k]) && ((!bs[k].tangible || bs[k].immovable) ==> r[k] == bs[k])
    ensures forall k :: 0 <= k < |bs| ==> r[k] == bs[k] || NormSq(r[k].vel) <= maxVelocity * maxVelocity
  {
    LoopLeavesInert(bs, AllPairs(|bs|), deltaTime, maxVelocity, dir);
    LoopCapsSpeed(bs, AllPairs(|bs|), deltaTime, maxVelocity, dir);
    Fold(bs, AllPairs(|bs|), StepOf(deltaTime, maxVelocity, dir))
  }

  /**
   * An intangible or immovable planet is never updated: the pair loop
   * leaves it exactly as it was, and no planet changes mass or flags.
   */
  lemma {:induction false} LoopLeavesInert(bs: seq<Body>, ps: seq<(nat, nat)>, deltaTime: real, maxVelocity: real, dir: Vec -> Vec)
    requires IsDirection(dir)
    ensures var r := Fold(bs, ps, StepOf(deltaTime, maxVelocity, dir));
      && |r| == |bs|
      && forall k :: 0 <= k < |bs| ==>
        SameKind(r[k], bs[k]) && ((!bs[k].tangible || bs[k].immovable) ==> r[k] == bs[k])
    decreases |ps|
  {
    if ps != [] {
      var (i, j) := ps[0];
      var next := StepOf(deltaTime, maxVelocity, dir)(bs, i, j);
      if i < j < |bs| {
        PairStepFrame(bs, i, j, deltaTime, maxVelocity, dir);
      }
      LoopLeavesInert(next, ps[1..], deltaTime, maxVelocity, dir);
    }
  }

  /**
   * After the pair loop every planet is either as it was or within the
   * velocity cap: every update the loop makes ends with limit.
   */
  lemma {:induction false} LoopCapsSpeed(bs: seq<Body>, ps: seq<(nat, nat)>, deltaTime: real, maxVelocity: real, dir: Vec -> Vec)
    requires IsDirection(dir)
    ensures var r := Fold(bs, ps, StepOf(deltaTime, maxVelocity, dir));
      && |r| == |bs|
      && forall k :: 0 <= k < |bs| ==> r[k] == bs[k] || NormSq(r[k].vel) <= maxVelocity * maxVelocity
    decreases |ps|
  {
    if ps != [] {
      var (i, j) := ps[0];
      var next := StepOf(deltaTime, maxVelocity, dir)(bs, i, j);
      if i < j < |bs| {
        PairStepFrame(bs, i, j, deltaTime, maxVelocity, dir);
      }
      LoopCapsSpeed(next, ps[1..], deltaTime, maxVelocity, dir);
      assert forall k :: 0 <= k < |bs| ==> next[k] == bs[k] || NormSq(next[k].vel) <= maxVelocity * maxVelocity;
    }
  }

  /** Momentum, mass times velocity. */
  function Momentum(b: Body): Vec
  {
    Scale(b.vel, b.mass)
  }

  /** A kick by force f adds exactly f to the planet's momentum. */
  lemma KickAddsForce(b: Body, f: Vec)
    ensures Momentum(b.(vel := Kick(b, f))) == Add(Momentum(b), f)
  {
    DivMulCancel(f.x, b.mass);
    DivMulCancel(f.y, b.mass);
  }

  /**
   * The cap is what breaks momentum: when neither planet of a tangible,
   * movable pair is pushed over maxVelocity, the pair's total momentum is
   * the same after the step as before.
   */
  lemma PairConservesMomentumUnderCap(bs: seq<Body>, i: nat, j: nat, deltaTime: real, maxVelocity: real, dir: Vec -> Vec)
    requires i < j < |bs| && IsDirection(dir)
    requires bs[i].tangible && bs[j].tangible && !bs[i].immovable && !bs[j].immovable
    requires var f := Planets2Physics.Pull(bs[i].pos, bs[j].pos, bs[i].mass, bs[j].mass);
      && NormSq(Kick(bs[i], f)) <= maxVelocity * maxVelocity
      && NormSq(Kick(bs[j], Neg(f))) <= maxVelocity * maxVelocity
    ensures var r := PairStep(bs, i, j, deltaTime, maxVelocity, dir);
      Add(Momentum(r[i]), Momentum(r[j])) == Add(Momentum(bs[i]), Momentum(bs[j]))
  {
    var a, b := bs[i], bs[j];
    var f := Planets2Physics.Pull(a.pos, b.pos, a.mass, b.mass);
    var r := PairStep(bs, i, j, deltaTime, maxVelocity, dir);
    assert r[i] == Move(a, f, deltaTime, maxVelocity, dir);
    assert r[j] == Move(b, Neg(f), deltaTime, maxVelocity, dir);
    assert Momentum(r[i]) == Momentum(a.(vel := Kick(a, f)));
    assert Momentum(r[j]) == Momentum(b.(vel := Kick(b, Neg(f))));
    KickAddsForce(a, f);
    KickAddsForce(b, Neg(f));
  }

  /**
   * The physical states of a list of planets. Each sketch has its own
   * Planet class and Body type, so each module defines its own States.
   */
  ghost function States(ps: seq<Planet>): (r: seq<Body>)
    reads ps
    ensures |r| == |ps| && forall k :: 0 <= k < |ps| ==> r[k] == ps[k].State()
  {
    seq(|ps|, k requires 0 <= k < |ps| reads ps => ps[k].State())
  }

  /**
   * The i-th planet of setup, from its random direction dir and the uniform
   * draw u behind random(1, 9): mass floor(1 + 8u), at CENTER plus 100
   * times ring(i) = (cos 120i, sin 120i) (degrees), with velocity
   * dir * 180 / mass; tangible and movable.
   */
  function StartState(i: nat, ring: nat -> Vec, center: Vec, dir: Vec, u: real): (b: Body)
    requires 0.0 <= u < 1.0
    ensures 1.0 <= b.mass <= 8.0 && b.mass == b.mass.Floor as real
    ensures b.tangible && !b.immovable
    ensures Sub(b.pos, center) == Scale(ring(i), 100.0)
    ensures Scale(b.vel, b.mass) == Scale(dir, 180.0)
  {
    var m: Mass := FloorMass(1.0 + u * 8.0);
    DivMulCancel(dir.x * 180.0, m);
    DivMulCancel(dir.y * 180.0, m);
    Body(m, Add(Scale(ring(i), 100.0), center), Div(Scale(dir, 180.0), m), false, true)
  }

  /**
   * (cos 120i, sin 120i) in degrees repeats every three planets, so setup
   * starts planets i and i + 3 on the same point: eight planets on three
   * points.
   */
  ghost predicate IsThirds(ring: nat -> Vec)
  {
    forall k: nat :: ring(k) == ring(k % 3)
  }

  lemma {:induction false} StartsShareThreePoints(ring: nat -> Vec, center: Vec, i: nat, d1: Vec, u1: real, d2: Vec, u2: real)
    requires IsThirds(ring) && 0.0 <= u1 < 1.0 && 0.0 <= u2 < 1.0
    ensures StartState(i, ring, center, d1, u1).pos == StartState(i + 3, ring, center, d2, u2).pos
  {
    assert ring(i + 3) == ring((i + 3) % 3) == ring(i % 3) == ring(i);
  }

  class Planet {
    const mass: Mass
    var pos: Vec
    var vel: Vec
    var lastPos: Vec
    const immovable: bool
    const visible: bool
    var tangible: bool

    function State(): Body
      reads this
    {
      Body(mass, pos, vel, immovable, tangible)
    }

    /** new Planet(mass, color, startPos, immovable, visible, tangible); the colour is left out. */
    constructor (mass: Mass, startPos: Vec, immovable: bool, visible: bool, tangible: bool)
      ensures State() == Body(mass, startPos, Zero, immovable, tangible)
      ensures lastPos == startPos && this.visible == visible
    {
      this.mass := mass;
      this.pos := startPos;
      this.vel := Zero;
      this.lastPos := startPos;
      this.immovable := immovable;
      this.visible := visible;
      this.tangible := tangible;
    }

    /**
     * gravitate(other): changes nothing and returns the pull towards the
     * other planet. r2 is the squared distance (Math.pow of dist, 2); at
     * r2 == 0 the factor is not finite and p5's mult leaves the difference
     * as it is.
     */
    method Gravitate(other: Planet) returns (f: Vec)
      ensures f == Planets2Physics.Pull(pos, other.pos, mass, other.mass)
    {
      var d := Sub(other.pos, pos);
      var r2 := NormSq(d);
      if r2 == 0.0 {
        f := d;
      } else {
        var factor := Planets2Physics.GRAVITY * mass * other.mass / r2;
        f := Scale(d, factor);
      }
    }

    /** update(force): see Move. */
    method Update(force: Vec, deltaTime: real, maxVelocity: real, dir: Vec -> Vec)
      requires IsDirection(dir)
      modifies this`vel, this`pos
      ensures State() == Move(old(State()), force, deltaTime, maxVelocity, dir)
    {
      var acc := Div(force, mass);
      vel := Add(vel, acc);
      vel := Limit(vel, maxVelocity, dir);
      pos := Add(pos, Scale(vel, deltaTime / (1000.0 * 3.0)));
    }

    /** The state change of draw: a visible planet's lastPos becomes its position. */
    method Draw()
      modifies this`lastPos
      ensures visible ==> lastPos == pos
      ensures !visible ==> lastPos == old(lastPos)
    {
      if !visible { return; }
      lastPos := pos;
    }
  }

  /** The closure state of the sketch. */
  class Sketch {
    /** innerWidth and innerHeight. */
    const width: real
    const height: real
    /** The immovable, invisible planet that follows the pointer; its position vector is CENTER itself. */
    const mousePlanet: Planet
    var planets: seq<Planet>
    var mouseCooldown: real
    var maxVelocity: real

    /** No planet is listed twice. */
    ghost predicate Valid()
      reads this
    {
      Distinct(planets)
    }

    /** CENTER: the mouse planet's position vector (the mouse handlers write into it). */
    function Center(): Vec
      reads mousePlanet
    {
      mousePlanet.pos
    }

    /** The sketch before setup: no planets, cooldown 0, maxVelocity 1200, the mouse planet at the canvas centre. */
    constructor (width: real, height: real)
      ensures this.width == width && this.height == height
      ensures planets == [] && mouseCooldown == 0.0 && maxVelocity == START_MAX_VELOCITY
      ensures fresh(mousePlanet)
      ensures mousePlanet.State() == Body(MOUSE_MASS, Vec(width / 2.0, height / 2.0), Zero, true, false)
      ensures !mousePlanet.visible
      ensures Center() == Vec(width / 2.0, height / 2.0)
      ensures Valid()
    {
      this.width := width;
      this.height := height;
      mousePlanet := new Planet(MOUSE_MASS, Vec(width / 2.0, height / 2.0), true, false, false);
      planets := [];
      mouseCooldown := 0.0;
      maxVelocity := START_MAX_VELOCITY;
    }

    /**
     * setup: eight new planets (see StartState), drawing from the random
     * streams in the source's order, then the mouse planet appended last.
     * ring(i) stands for (cos 120i, sin 120i). The canvas and the trail
     * buffer are left out.
     */
    method Setup(ring: nat -> Vec, rng: Entropy.Rng)
      requires planets == [] && Valid() && rng.Valid()
      modifies this`planets, rng
      ensures |planets| == NUM_PLANETS + 1 && planets[NUM_PLANETS] == mousePlanet
      ensures rng.unitsDrawn == old(rng.unitsDrawn) + NUM_PLANETS
      ensures rng.uniformsDrawn == old(rng.uniformsDrawn) + 3 * NUM_PLANETS
      ensures forall k :: 0 <= k < NUM_PLANETS ==>
        && fresh(planets[k]) && planets[k].visible && planets[k].lastPos == planets[k].pos
        && planets[k].State()
             == StartState(k, ring, Center(), rng.unit(old(rng.unitsDrawn) + k), rng.uniform(old(rng.uniformsDrawn) + 3 * k))
      ensures Valid()
    {
      var i := 0;
      while i < NUM_PLANETS
        invariant 0 <= i <= NUM_PLANETS && |planets| == i
        invariant rng.unitsDrawn == old(rng.unitsDrawn) + i
        invariant rng.uniformsDrawn == old(rng.uniformsDrawn) + 3 * i
        invariant forall k :: 0 <= k < i ==>
          && fresh(planets[k]) && planets[k].visible && planets[k].lastPos == planets[k].pos
          && planets[k].State()
               == StartState(k, ring, Center(), rng.unit(old(rng.unitsDrawn) + k), rng.uniform(old(rng.uniformsDrawn) + 3 * k))
        invariant Distinct(planets)
      {
        var p := NewPlanet(i, ring, rng);
        planets := planets + [p];
        i := i + 1;
      }
      planets := planets + [mousePlanet];
    }

    /**
     * One pass of setup's loop: rand = random2D() * 180 (normalize leaves a
     * unit vector as it is), the mass floor(random(1, 9)), the colour's two
     * draws, the planet at ring(i) * 100 + CENTER, then its velocity
     * gains rand / mass.
     */
    method NewPlanet(i: nat, ring: nat -> Vec, rng: Entropy.Rng) returns (p: Planet)
      requires rng.Valid()
      modifies rng
      ensures fresh(p) && p.visible && p.lastPos == p.pos
      ensures p.State() == StartState(i, ring, Center(), rng.unit(old(rng.unitsDrawn)), rng.uniform(old(rng.uniformsDrawn)))
      ensures rng.unitsDrawn == old(rng.unitsDrawn) + 1
      ensures rng.uniformsDrawn == old(rng.uniformsDrawn) + 3
    {
      var dir := rng.Random2D();
      var rand := Scale(dir, 180.0);
      var r := rng.Random(1.0, 9.0);
      var _ := rng.Random(0.0, 255.0);
      var _ := rng.Random(20.0, 150.0);
      p := PlaceAt(i, ring, rand, FloorMass(r));
    }

    /** The planet of setup's loop once its random draws are made. */
    method PlaceAt(i: nat, ring: nat -> Vec, rand: Vec, mass: Mass) returns (p: Planet)
      ensures fresh(p) && p.visible && p.lastPos == p.pos
      ensures p.State() == Body(mass, Add(Scale(ring(i), 100.0), Center()), Div(rand, mass), false, true)
    {
      p := new Planet(mass, Add(Scale(ring(i), 100.0), Center()), false, true, true);
      p.vel := Add(p.vel, Div(rand, p.mass));
    }

    /**
     * doubleClicked: every planet but the last (the mouse planet, appended
     * last by setup) is put on a ring of radius 80 around the pointer, at
     * ring(i), with a fresh random velocity of 60 / mass; presses are
     * ignored for the next MOUSE_COOLDOWN milliseconds. Clearing the trail
     * buffer is left out.
     */
    method DoubleClicked(mouseX: real, mouseY: real, ring: nat -> Vec, rng: Entropy.Rng)
      requires Valid()
      modifies planets, this`mouseCooldown, rng
      ensures mouseCooldown == MOUSE_COOLDOWN
      ensures rng.unitsDrawn == old(rng.unitsDrawn) + (if |planets| == 0 then 0 else |planets| - 1)
      ensures forall k :: 0 <= k < |planets| - 1 ==>
        && planets[k].pos == Add(Scale(ring(k), 80.0), Vec(mouseX, mouseY))
        && planets[k].vel == Div(Scale(rng.unit(old(rng.unitsDrawn) + k), 60.0), planets[k].mass)
      ensures forall k :: 0 <= k < |planets| ==>
        planets[k].tangible == old(planets[k].tangible) && planets[k].lastPos == old(planets[k].lastPos)
      ensures 0 < |planets| ==> planets[|planets| - 1].State() == old(planets[|planets| - 1].State())
    {
      var i := 0;
      while i < |planets| - 1
        invariant 0 <= i <= if |planets| == 0 then 0 else |planets| - 1
        invariant rng.unitsDrawn == old(rng.unitsDrawn) + i
        invariant forall k :: 0 <= k < i ==>
          && planets[k].pos == Add(Scale(ring(k), 80.0), Vec(mouseX, mouseY))
          && planets[k].vel == Div(Scale(rng.unit(old(rng.unitsDrawn) + k), 60.0), planets[k].mass)
        invariant forall k :: i <= k < |planets| ==> planets[k].State() == old(planets[k].State())
        invariant forall k :: 0 <= k < |planets| ==>
          planets[k].tangible == old(planets[k].tangible) && planets[k].lastPos == old(planets[k].lastPos)
      {
        assert forall k :: 0 <= k < |planets| && k != i ==> planets[k] != planets[i];
        Scatter(planets[i], i, mouseX, mouseY, ring, rng);
        i := i + 1;
      }
      mouseCooldown := MOUSE_COOLDOWN;
    }

    /** One pass of doubleClicked's loop, on planet p, the i-th. */
    method Scatter(p: Planet, i: nat, mouseX: real, mouseY: real, ring: nat -> Vec, rng: Entropy.Rng)
      modifies p`pos, p`vel, rng
      ensures p.pos == Add(Scale(ring(i), 80.0), Vec(mouseX, mouseY))
      ensures p.vel == Div(Scale(rng.unit(old(rng.unitsDrawn)), 60.0), p.mass)
      ensures rng.unitsDrawn == old(rng.unitsDrawn) + 1
    {
      var dir := rng.Random2D();
      p.pos := Add(Scale(ring(i), 80.0), Vec(mouseX, mouseY));
      p.vel := Div(Scale(dir, 60.0), p.mass);
    }

    /** mouseMoved and mouseDragged: the mouse planet, and with it CENTER, moves to the pointer. */
    method MovePointer(mouseX: real, mouseY: real)
      modifies mousePlanet`pos
      ensures Center() == mousePlanet.pos == Vec(mouseX, mouseY)
    {
      mousePlanet.pos := mousePlanet.pos.(x := mouseX);
      mousePlanet.pos := mousePlanet.pos.(y := mouseY);
    }

    /** mousePressed: ignored during the cooldown; otherwise the mouse planet takes part and the cap drops to 300. */
    method MousePressed()
      modifies mousePlanet`tangible, this`maxVelocity
      ensures old(mouseCooldown) > 0.0 ==> mousePlanet.tangible == old(mousePlanet.tangible) && maxVelocity == old(maxVelocity)
      ensures old(mouseCooldown) <= 0.0 ==> mousePlanet.tangible && maxVelocity == PRESSED_MAX_VELOCITY
    {
      if mouseCooldown > 0.0 { return; }
      mousePlanet.tangible := true;
      maxVelocity := PRESSED_MAX_VELOCITY;
    }

    /** mouseReleased: the mouse planet leaves the physics again and the cap becomes 800. */
    method MouseReleased()
      modifies mousePlanet`tangible, this`maxVelocity
      ensures !mousePlanet.tangible && maxVelocity == RELEASED_MAX_VELOCITY
    {
      mousePlanet.tangible := false;
      maxVelocity := RELEASED_MAX_VELOCITY;
    }

    /** The cooldown tick at the start of draw. */
    method TickCooldown(deltaTime: real)
      modifies this`mouseCooldown
      ensures mouseCooldown == Tick(old(mouseCooldown), deltaTime)
    {
      if mouseCooldown > 0.0 {
        mouseCooldown := mouseCooldown - deltaTime;
      }
    }

    /**
     * draw, rendering left out: the cooldown tick, the pair loop (see
     * Frame), then every visible planet's lastPos catches up with its
     * position. dir is the division by the magnitude that limit makes.
     */
    method Draw(deltaTime: real, dir: Vec -> Vec)
      requires Valid() && IsDirection(dir)
      modifies this`mouseCooldown, planets
      ensures mouseCooldown == Tick(old(mouseCooldown), deltaTime)
      ensures States(planets) == Frame(old(States(planets)), deltaTime, maxVelocity, dir)
      ensures forall k :: 0 <= k < |planets| ==>
        && (planets[k].visible ==> planets[k].lastPos == planets[k].pos)
        && (!planets[k].visible ==> planets[k].lastPos == old(planets[k].lastPos))
    {
      TickCooldown(deltaTime);
      ghost var step := StepOf(deltaTime, maxVelocity, dir);
      ghost var s0 := States(planets);
      StepPairs(deltaTime, dir, step);
      RowsFoldIsFold(s0, 0, |s0|, step);
      DrawAll();
    }

    /** The nested pair loop of draw. */
    method StepPairs(deltaTime: real, dir: Vec -> Vec, ghost step: Step<Body>)
      requires Valid() && IsDirection(dir) && Repeats(step, deltaTime, maxVelocity, dir)
      modifies planets
      ensures States(planets) == RowsFold(old(States(planets)), 0, |planets|, step)
      ensures forall k :: 0 <= k < |planets| ==> planets[k].lastPos == old(planets[k].lastPos)
    {
      var n := |planets|;
      var i := 0;
      ghost var cur := States(planets);
      while i < n - 1
        invariant 0 <= i <= n
        invariant cur == States(planets)
        invariant RowsFold(cur, i, n, step) == RowsFold(old(States(planets)), 0, n, step)
        invariant forall k :: 0 <= k < n ==> planets[k].lastPos == old(planets[k].lastPos)
      {
        PairsOf(i, deltaTime, dir, step);
        cur := RowFold(cur, i, i + 1, n, step);
        i := i + 1;
      }
    }

    /** The inner loop of draw, row i: planet i with every later planet. */
    method PairsOf(i: nat, deltaTime: real, dir: Vec -> Vec, ghost step: Step<Body>)
      requires Valid() && IsDirection(dir) && Repeats(step, deltaTime, maxVelocity, dir) && i < |planets|
      modifies planets
      ensures States(planets) == RowFold(old(States(planets)), i, i + 1, |planets|, step)
      ensures forall k :: 0 <= k < |planets| ==> planets[k].lastPos == old(planets[k].lastPos)
    {
      var n := |planets|;
      var j := i + 1;
      ghost var cur := States(planets);
      while j < n
        invariant i + 1 <= j <= n
        invariant cur == States(planets)
        invariant RowFold(cur, i, j, n, step) == RowFold(old(States(planets)), i, i + 1, n, step)
        invariant forall k :: 0 <= k < n ==> planets[k].lastPos == old(planets[k].lastPos)
      {
        Pair(i, j, planets[i], planets[j], deltaTime, dir, step);
        cur := step(cur, i, j);
        j := j + 1;
      }
    }

    /** One pass of the inner loop: see PairStep, which step repeats. */
    method Pair(i: nat, j: nat, a: Planet, b: Planet, deltaTime: real, dir: Vec -> Vec, ghost step: Step<Body>)
      requires Valid() && IsDirection(dir) && Repeats(step, deltaTime, maxVelocity, dir)
      requires i < j < |planets| && a == planets[i] && b == planets[j]
      modifies a`pos, a`vel, b`pos, b`vel
      ensures States(planets) == step(old(States(planets)), i, j)
    {
      ghost var s := States(planets);
      ghost var r := PairStep(s, i, j, deltaTime, maxVelocity, dir);
      assert forall k :: 0 <= k < |planets| && k != i && k != j ==> planets[k] != a && planets[k] != b;
      if !(a.tangible && b.tangible) { return; }
      InteractPlanets(a, b, deltaTime, maxVelocity, dir);
      assert a.State() == r[i] && b.State() == r[j];
      assert forall k :: 0 <= k < |planets| && k != i && k != j ==> planets[k].State() == s[k] == r[k];
    }

    /** The body of the inner loop for two tangible planets: a pulled by b, b pulled back, each unless immovable. */
    method InteractPlanets(a: Planet, b: Planet, deltaTime: real, maxVelocity: real, dir: Vec -> Vec)
      requires a != b && a.tangible && b.tangible && IsDirection(dir)
      modifies a`pos, a`vel, b`pos, b`vel
      ensures var f := Planets2Physics.Pull(old(a.pos), old(b.pos), a.mass, b.mass);
        && a.State() == (if a.immovable then old(a.State()) else Move(old(a.State()), f, deltaTime, maxVelocity, dir))
        && b.State() == (if b.immovable then old(b.State()) else Move(old(b.State()), Neg(f), deltaTime, maxVelocity, dir))
    {
      var force := a.Gravitate(b);
      if !a.immovable { a.Update(force, deltaTime, maxVelocity, dir); }
      if !b.immovable { b.Update(Neg(force), deltaTime, maxVelocity, dir); }
    }

    /** planets.forEach(p => p.draw()), for its state change. */
    method DrawAll()
      requires Valid()
      modifies planets
      ensures forall k :: 0 <= k < |planets| ==> planets[k].State() == old(planets[k].State())
      ensures forall k :: 0 <= k < |planets| ==>
        && (planets[k].visible ==> planets[k].lastPos == planets[k].pos)
        && (!planets[k].visible ==> planets[k].lastPos == old(planets[k].lastPos))
    {
      var i := 0;
      while i < |planets|
        invariant 0 <= i <= |planets|
        invariant forall k :: 0 <= k < |planets| ==> planets[k].State() == old(planets[k].State())
        invariant forall k :: 0 <= k < i ==>
          && (planets[k].visible ==> planets[k].lastPos == planets[k].pos)
          && (!planets[k].visible ==> planets[k].lastPos == old(planets[k].lastPos))
        invariant forall k :: i <= k < |planets| ==> planets[k].lastPos == old(planets[k].lastPos)
      {
        planets[i].Draw();
        assert forall k :: 0 <= k < |planets| && k != i ==> planets[k] != planets[i];
        i := i + 1;
      }
    }
  }
}
