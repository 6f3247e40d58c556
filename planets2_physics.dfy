/**
 * The physics of the "Planets 2" sketch (src/experiments/07-planets2.js) on
 * values: one planet's physical state is a Body, and each of Planet's
 * state-changing methods is specified here by a function from the old
 * state(s) to the new one(s). The Planet class in module Planets2 ties its
 * fields to these functions; the lemmas below state what the functions mean.
 */
module Planets2Physics {
  import opened Vectors
  import opened RealFacts
  import opened Options

  /** Gravitational constant of the sketch. */
  const GRAVITY: real := 100.0
  /** Factor applied, negated, to a velocity component that hits an edge. */
  const EDGE_COLLISION_FACTOR: real := 0.6
  /** Multiplier on the planet-planet impulse; above 1, so it adds energy. */
  const PLANET_COLLISION_FACTOR: real := 1.2
  /** Timescale: draw integrates with dt = deltaTime / 1000 * TIMESCALE. */
  const TIMESCALE: real := 6.0

  type Mass = m: real | 0.0 < m witness 1.0

  /** The physical part of a planet: what gravitate, update, collideEdges and collide read and write. */
  datatype Body = Body(mass: Mass, radius: real, pos: Vec, vel: Vec, acc: Vec, lastPos: Vec, immovable: bool)

  /** The planet constructor's radius: mass * 3 / 2. */
  function RadiusOf(mass: real): real { mass * 3.0 / 2.0 }

  /** A body just constructed at startPos: at rest, no acceleration, lastPos a copy of the position. */
  function NewBody(mass: Mass, startPos: Vec, immovable: bool): (b: Body)
    ensures b.radius == RadiusOf(mass) && b.pos == startPos && b.lastPos == startPos
    ensures b.vel == Zero && b.acc == Zero && b.mass == mass && b.immovable == immovable
  {
    Body(mass, RadiusOf(mass), startPos, Zero, Zero, startPos, immovable)
  }

  // ---------------------------------------------------------------- gravity

  /**
   * The vector gravitate computes: the raw difference pb - pa times
   * G * ma * mb / r2, where r2 is the squared distance. The difference is
   * not normalised, so the magnitude is G * ma * mb / r, not / r^2.
   */
  function GravityForce(pa: Vec, pb: Vec, ma: Mass, mb: Mass): (f: Vec)
    requires NormSq(Sub(pb, pa)) != 0.0
    ensures Cross(f, Sub(pb, pa)) == 0.0
    ensures NormSq(f) * NormSq(Sub(pb, pa)) == (GRAVITY * ma * mb) * (GRAVITY * ma * mb)
  {
    var r := Sub(pb, pa);
    var k := GRAVITY * ma * mb / NormSq(r);
    ScaledMagnitude(r, k, GRAVITY * ma * mb);
    Scale(r, k)
  }

  /**
   * What gravitate returns at any distance, in the sketches that call it
   * with no guard (06-planets.js and planets.js): the force of
   * GravityForce, and at zero distance the unscaled difference pb - pa,
   * which is the zero vector. There the factor G * ma * mb / 0 is not
   * finite, and p5's mult leaves a vector as it is for a factor that is not
   * a finite number.
   */
  function Pull(pa: Vec, pb: Vec, ma: Mass, mb: Mass): (f: Vec)
    ensures Cross(f, Sub(pb, pa)) == 0.0
    ensures NormSq(Sub(pb, pa)) != 0.0 ==> NormSq(f) * NormSq(Sub(pb, pa)) == (GRAVITY * ma * mb) * (GRAVITY * ma * mb)
    ensures NormSq(Sub(pb, pa)) == 0.0 ==> f == Sub(pb, pa)
  {
    if NormSq(Sub(pb, pa)) == 0.0 then Sub(pb, pa) else GravityForce(pa, pb, ma, mb)
  }

  /** Between planets at different places the pull is never the zero vector. */
  lemma PullNonZero(pa: Vec, pb: Vec, ma: Mass, mb: Mass)
    requires NormSq(Sub(pb, pa)) != 0.0
    ensures Pull(pa, pb, ma, mb) != Zero
  {
    var d := Sub(pb, pa);
    var r2 := NormSq(d);
    var c := GRAVITY * ma * mb;
    MulPos(GRAVITY, ma);
    MulPos(GRAVITY * ma, mb);
    SquareNonNegative(d.x);
    SquareNonNegative(d.y);
    var k := c / r2;
    assert 0.0 < k;
    assert Pull(pa, pb, ma, mb) == Scale(d, k);
    if d.x == 0.0 {
      assert d.y != 0.0;
      assert d.y * k != 0.0;
    } else {
      assert d.x * k != 0.0;
    }
  }

  /** Newton's third law: the pull B computes towards A is A's pull towards B, negated. */
  lemma PullAntisymmetric(pa: Vec, pb: Vec, ma: Mass, mb: Mass)
    ensures Pull(pb, pa, mb, ma) == Neg(Pull(pa, pb, ma, mb))
  {
    var d := Sub(pb, pa);
    assert Sub(pa, pb) == Neg(d);
    assert NormSq(Neg(d)) == NormSq(d);
    if NormSq(d) != 0.0 {
      var c := GRAVITY * ma * mb;
      assert GRAVITY * mb * ma == c;
      var k := c / NormSq(d);
      assert GravityForce(pb, pa, mb, ma) == Scale(Neg(d), k);
      assert Scale(Neg(d), k) == Neg(Scale(d, k));
    }
  }

  /** |k v|^2 * |v|^2 == c^2 when k = c / |v|^2. */
  lemma ScaledMagnitude(v: Vec, k: real, c: real)
    requires NormSq(v) != 0.0 && k == c / NormSq(v)
    ensures NormSq(Scale(v, k)) * NormSq(v) == c * c
    ensures Cross(Scale(v, k), v) == 0.0
  {
    var s := NormSq(v);
    DivMulCancel(c, s);
    assert k * s == c;
    calc {
      NormSq(Scale(v, k)) * s;
      == (v.x * k * v.x * k + v.y * k * v.y * k) * s;
      == (k * k) * (s * s);
      == (k * s) * (k * s);
    }
  }

  /** The direction of the force: from A towards B. */
  lemma GravityForcePointsToOther(pa: Vec, pb: Vec, ma: Mass, mb: Mass)
    requires NormSq(Sub(pb, pa)) != 0.0
    ensures 0.0 < Dot(GravityForce(pa, pb, ma, mb), Sub(pb, pa))
  {
    var r := Sub(pb, pa);
    var s := NormSq(r);
    var c := GRAVITY * ma * mb;
    var k := c / s;
    assert 0.0 < c by { MulPos(GRAVITY, ma); MulPos(GRAVITY * ma, mb); }
    NormSqNonNegative(r);
    assert 0.0 < k by { DivPos(c, s); }
    assert Dot(Scale(r, k), r) == k * s;
    MulPos(k, s);
  }

  lemma NormSqNonNegative(v: Vec)
    ensures 0.0 <= NormSq(v)
  {
    SquareNonNegative(v.x);
    SquareNonNegative(v.y);
  }

  lemma DivPos(c: real, s: real)
    requires 0.0 < c && 0.0 < s
    ensures 0.0 < c / s
  {}

  /**
   * gravitate followed by the two applyForce calls: A's acceleration gains
   * f / mA and B's gains (-f) / mB, each skipped for an immovable body.
   * Nothing but the accelerations changes.
   */
  function Gravitate(a: Body, b: Body): (r: (Body, Body))
    requires NormSq(Sub(b.pos, a.pos)) != 0.0
    ensures r.0 == a.(acc := r.0.acc) && r.1 == b.(acc := r.1.acc)
    ensures a.immovable ==> r.0 == a
    ensures b.immovable ==> r.1 == b
  {
    var f := GravityForce(a.pos, b.pos, a.mass, b.mass);
    (if a.immovable then a else a.(acc := Add(a.acc, Div(f, a.mass))),
     if b.immovable then b else b.(acc := Add(b.acc, Div(Neg(f), b.mass))))
  }

  /** Equal and opposite: with both bodies movable, mA * dAccA + mB * dAccB == 0. */
  lemma {:induction false} GravitateConservesMomentum(a: Body, b: Body)
    requires NormSq(Sub(b.pos, a.pos)) != 0.0
    requires !a.immovable && !b.immovable
    ensures var (a', b') := Gravitate(a, b);
      Add(Scale(Sub(a'.acc, a.acc), a.mass), Scale(Sub(b'.acc, b.acc), b.mass)) == Zero
  {
    var f := GravityForce(a.pos, b.pos, a.mass, b.mass);
    DivMulCancel(f.x, a.mass);
    DivMulCancel(f.y, a.mass);
    DivMulCancel(-f.x, b.mass);
    DivMulCancel(-f.y, b.mass);
  }

  // ------------------------------------------------------------ integration

  /**
   * Planet.update(dt): an immovable body is left alone; otherwise
   * semi-implicit Euler (the velocity is updated first and the new velocity
   * moves the body), lastPos takes the old position and acc is cleared.
   */
  function Integrate(b: Body, dt: real): (r: Body)
    ensures b.immovable ==> r == b
    ensures !b.immovable ==> r.acc == Zero && r.lastPos == b.pos
    ensures r.mass == b.mass && r.radius == b.radius && r.immovable == b.immovable
  {
    if b.immovable then b
    else
      var vel := Add(b.vel, Scale(b.acc, dt));
      b.(vel := vel, lastPos := b.pos, pos := Add(b.pos, Scale(vel, dt)), acc := Zero)
  }

  /**
   * Once a movable body has been integrated its acceleration is zero, so
   * the next step without new forces keeps its velocity and moves it along
   * a straight line: two steps advance it by vel * (dt1 + dt2).
   */
  lemma {:induction false} FreeFlight(b: Body, dt1: real, dt2: real)
    requires !b.immovable && b.acc == Zero
    ensures Integrate(Integrate(b, dt1), dt2).vel == b.vel
    ensures Integrate(Integrate(b, dt1), dt2).pos == Add(b.pos, Scale(b.vel, dt1 + dt2))
  {
    var b1 := Integrate(b, dt1);
    assert b1.vel == b.vel;
    assert b1.pos == Add(b.pos, Scale(b.vel, dt1));
  }

  /**
   * Semi-implicit, not explicit, Euler: the displacement of one step is
   * the old velocity plus the new acceleration term, so a body at rest
   * under a constant acceleration already moves in its first step.
   */
  lemma {:induction false} IntegrateUsesNewVelocity(b: Body, dt: real)
    requires !b.immovable
    ensures Sub(Integrate(b, dt).pos, b.pos) == Scale(Integrate(b, dt).vel, dt)
    ensures Integrate(b, dt).vel == Add(b.vel, Scale(b.acc, dt))
  {}

  // ---------------------------------------------------------- edge collisions

  /** The result of testing one axis against [radius, bound - radius]. */
  datatype AxisResult = AxisResult(coord: real, speed: real, hit: bool)

  /**
   * One axis of collideEdges: below radius clamps to radius, above
   * bound - radius clamps to bound - radius; either way the speed is
   * multiplied by -EDGE_COLLISION_FACTOR, whatever its sign.
   */
  function EdgeAxis(x: real, v: real, r: real, bound: real): (res: AxisResult)
    ensures res.hit <==> (x - r < 0.0 || x + r > bound)
    ensures res.hit ==> res.speed == v * -EDGE_COLLISION_FACTOR
    ensures !res.hit ==> res.coord == x && res.speed == v
    ensures x - r < 0.0 ==> res.coord == r
    ensures !(x - r < 0.0) && x + r > bound ==> res.coord == bound - r
  {
    if x - r < 0.0 then AxisResult(r, v * -EDGE_COLLISION_FACTOR, true)
    else if x + r > bound then AxisResult(bound - r, v * -EDGE_COLLISION_FACTOR, true)
    else AxisResult(x, v, false)
  }

  /** When the body fits (2 * radius <= bound), the coordinate ends inside [radius, bound - radius]. */
  lemma EdgeAxisClamps(x: real, v: real, r: real, bound: real)
    requires 2.0 * r <= bound
    ensures r <= EdgeAxis(x, v, r, bound).coord <= bound - r
  {}

  /** The effect collideEdges pushes: its origin, particle count and speed. */
  datatype Burst = Burst(origin: Vec, count: nat, speed: real)

  /**
   * collideEdges: the x axis against [radius, width - radius], then the
   * y axis against [radius, height - radius]. One burst of 20 particles at
   * speed 5, at (a copy of) the clamped position, when either axis hit.
   * The flags immovable and tangible play no part.
   */
  function CollideEdges(b: Body, width: real, height: real): (r: (Body, Option<Burst>))
    ensures r.0 == b.(pos := r.0.pos, vel := r.0.vel)
    ensures var ex := EdgeAxis(b.pos.x, b.vel.x, b.radius, width);
            var ey := EdgeAxis(b.pos.y, b.vel.y, b.radius, height);
            r.0.pos == Vec(ex.coord, ey.coord) && r.0.vel == Vec(ex.speed, ey.speed)
            && (r.1 == if ex.hit || ey.hit then Some(Burst(r.0.pos, 20, 5.0)) else None)
  {
    var ex := EdgeAxis(b.pos.x, b.vel.x, b.radius, width);
    var ey := EdgeAxis(b.pos.y, b.vel.y, b.radius, height);
    var b' := b.(pos := Vec(ex.coord, ey.coord), vel := Vec(ex.speed, ey.speed));
    (b', if ex.hit || ey.hit then Some(Burst(b'.pos, 20, 5.0)) else None)
  }

  /**
   * After collideEdges a body that fits the canvas lies inside
   * [radius, width - radius] x [radius, height - radius]; a body already
   * inside is left exactly as it was and no burst is made.
   */
  lemma {:induction false} CollideEdgesKeepsInside(b: Body, width: real, height: real)
    requires 2.0 * b.radius <= width && 2.0 * b.radius <= height
    ensures var (b', burst) := CollideEdges(b, width, height);
      && b.radius <= b'.pos.x <= width - b.radius
      && b.radius <= b'.pos.y <= height - b.radius
      && (Inside(b.pos, b.radius, width, height) <==> burst == None)
      && (Inside(b.pos, b.radius, width, height) ==> b' == b)
  {
    EdgeAxisClamps(b.pos.x, b.vel.x, b.radius, width);
    EdgeAxisClamps(b.pos.y, b.vel.y, b.radius, height);
  }

  predicate Inside(p: Vec, r: real, width: real, height: real)
  {
    0.0 <= p.x - r && p.x + r <= width && 0.0 <= p.y - r && p.y + r <= height
  }

  // ---------------------------------------------------------- body collisions

  /** What collide leaves behind: the two bodies and the burst it pushed, if any. */
  datatype PairOutcome = PairOutcome(a: Body, b: Body, burst: Option<Burst>)

  /** The impulse of collide: 2 * dot / (mA + mB) * PLANET_COLLISION_FACTOR. */
  function Impulse(dot: real, ma: Mass, mb: Mass): real
  {
    (2.0 * dot) / (ma + mb) * PLANET_COLLISION_FACTOR
  }

  /**
   * collide(other), with d the magnitude of impact = posB - posA (p5's mag).
   * Not touching (d >= rA + rB): nothing changes. Otherwise each movable body
   * has the SAME correction vector (the unit normal times overlap / 2)
   * subtracted from its position; then, unless the bodies separate along
   * the normal (dot < 0), A's velocity loses n * impulse * mB and B's gains
   * n * impulse * mA, and a 15-particle burst at speed 3 is made at
   * posA + n * rA.
   */
  function Collide(a: Body, b: Body, d: real): (r: PairOutcome)
    requires 0.0 <= d && d * d == NormSq(Sub(b.pos, a.pos))
    ensures r.a == a.(pos := r.a.pos, vel := r.a.vel) && r.b == b.(pos := r.b.pos, vel := r.b.vel)
    ensures a.immovable ==> r.a == a
    ensures b.immovable ==> r.b == b
    ensures d >= a.radius + b.radius ==> r == PairOutcome(a, b, None)
  {
    if !(d < a.radius + b.radius) then PairOutcome(a, b, None)
    else
      var n := Normalize(Sub(b.pos, a.pos), d);
      var moved := Separate(a, b, Scale(n, ((a.radius + b.radius) - d) * 0.5));
      Bounce(moved.0, moved.1, n)
  }

  /** The overlap correction: the same vector subtracted from each movable body's position. */
  function Separate(a: Body, b: Body, correction: Vec): (r: (Body, Body))
    ensures r.0 == a.(pos := r.0.pos) && r.1 == b.(pos := r.1.pos)
    ensures a.immovable ==> r.0 == a
    ensures b.immovable ==> r.1 == b
    ensures !a.immovable ==> Sub(a.pos, r.0.pos) == correction
    ensures !b.immovable ==> Sub(b.pos, r.1.pos) == correction
  {
    (if a.immovable then a else a.(pos := Sub(a.pos, correction)),
     if b.immovable then b else b.(pos := Sub(b.pos, correction)))
  }

  /**
   * The bounce along the unit normal n, after the correction: nothing
   * when the bodies separate along n; otherwise the impulse changes each
   * movable body's velocity and a burst is made at posA + n * rA.
   */
  function Bounce(a: Body, b: Body, n: Vec): (r: PairOutcome)
    ensures r.a == a.(vel := r.a.vel) && r.b == b.(vel := r.b.vel)
    ensures a.immovable ==> r.a == a
    ensures b.immovable ==> r.b == b
    ensures r.burst == None <==> Dot(Sub(a.vel, b.vel), n) < 0.0
  {
    if Dot(Sub(a.vel, b.vel), n) < 0.0 then PairOutcome(a, b, None)
    else
      var kicks := Kicks(a, b, n);
      var a2 := if a.immovable then a else a.(vel := Sub(a.vel, kicks.0));
      var b2 := if b.immovable then b else b.(vel := Add(b.vel, kicks.1));
      PairOutcome(a2, b2, Some(Burst(Add(a.pos, Scale(n, a.radius)), 15, 3.0)))
  }

  /**
   * The velocity changes of a bounce: with impulse = Impulse(dot, mA, mB),
   * A loses n * impulse * mB and B gains n * impulse * mA.
   */
  function Kicks(a: Body, b: Body, n: Vec): (Vec, Vec)
  {
    var impulse := Impulse(Dot(Sub(a.vel, b.vel), n), a.mass, b.mass);
    (Scale(n, impulse * b.mass), Scale(n, impulse * a.mass))
  }

  /** The unit normal collide uses (impact normalised). */
  function Normal(a: Body, b: Body, d: real): Vec
    requires 0.0 <= d && d * d == NormSq(Sub(b.pos, a.pos))
  {
    Normalize(Sub(b.pos, a.pos), d)
  }

  /**
   * The overlap correction moves both movable bodies by the same vector,
   * so it does not change their separation at all; an immovable body stays.
   * The correction is overlap / 2 along the impact direction.
   */
  lemma {:induction false} CorrectionKeepsSeparation(a: Body, b: Body, d: real)
    requires 0.0 <= d && d * d == NormSq(Sub(b.pos, a.pos))
    requires d < a.radius + b.radius
    requires !a.immovable && !b.immovable
    ensures var r := Collide(a, b, d);
      && Sub(r.b.pos, r.a.pos) == Sub(b.pos, a.pos)
      && Sub(a.pos, r.a.pos) == Sub(b.pos, r.b.pos)
      && Sub(a.pos, r.a.pos) == Scale(Normal(a, b, d), ((a.radius + b.radius) - d) * 0.5)
  {
  }

  /** Bodies that separate along the normal are corrected but not bounced, and no burst is made. */
  lemma {:induction false} SeparatingBodiesDoNotBounce(a: Body, b: Body, d: real)
    requires 0.0 <= d && d * d == NormSq(Sub(b.pos, a.pos))
    requires d < a.radius + b.radius
    requires Dot(Sub(a.vel, b.vel), Normal(a, b, d)) < 0.0
    ensures var r := Collide(a, b, d);
      r.a.vel == a.vel && r.b.vel == b.vel && r.burst == None
  {
  }

  /** Collide on touching bodies is the correction followed by the bounce along the normal. */
  lemma CollideIsSeparateThenBounce(a: Body, b: Body, d: real)
    requires 0.0 <= d && d * d == NormSq(Sub(b.pos, a.pos))
    requires d < a.radius + b.radius
    ensures var n := Normal(a, b, d);
      var moved := Separate(a, b, Scale(n, ((a.radius + b.radius) - d) * 0.5));
      && Collide(a, b, d) == Bounce(moved.0, moved.1, n)
      && moved.0.vel == a.vel && moved.1.vel == b.vel
      && moved.0.mass == a.mass && moved.1.mass == b.mass
      && moved.0.immovable == a.immovable && moved.1.immovable == b.immovable
  {
  }

  /**
   * A bounce between two movable bodies conserves momentum:
   * mA * dvA + mB * dvB == 0, and makes exactly one burst, at posA' + n * rA.
   */
  lemma {:induction false} BounceConservesMomentum(a: Body, b: Body, d: real)
    requires 0.0 <= d && d * d == NormSq(Sub(b.pos, a.pos))
    requires d < a.radius + b.radius
    requires 0.0 <= Dot(Sub(a.vel, b.vel), Normal(a, b, d))
    requires !a.immovable && !b.immovable
    ensures var r := Collide(a, b, d);
      && Add(Scale(Sub(r.a.vel, a.vel), a.mass), Scale(Sub(r.b.vel, b.vel), b.mass)) == Zero
      && r.burst == Some(Burst(Add(r.a.pos, Scale(Normal(a, b, d), a.radius)), 15, 3.0))
  {
    CollideIsSeparateThenBounce(a, b, d);
    var n := Normal(a, b, d);
    var moved := Separate(a, b, Scale(n, ((a.radius + b.radius) - d) * 0.5));
    BounceMomentum(moved.0, moved.1, n);
  }

  /** The same, for the bounce alone. */
  lemma BounceMomentum(a: Body, b: Body, n: Vec)
    requires 0.0 <= Dot(Sub(a.vel, b.vel), n)
    requires !a.immovable && !b.immovable
    ensures var r := Bounce(a, b, n);
      && Add(Scale(Sub(r.a.vel, a.vel), a.mass), Scale(Sub(r.b.vel, b.vel), b.mass)) == Zero
      && r.burst == Some(Burst(Add(r.a.pos, Scale(n, a.radius)), 15, 3.0))
  {
    var k := Impulse(Dot(Sub(a.vel, b.vel), n), a.mass, b.mass);
    OppositeKicks(a.vel, b.vel, n, k, a.mass, b.mass);
  }

  /** Kicks of -n * k * mB to a body of mass mA and n * k * mA to one of mass mB cancel in momentum. */
  lemma OppositeKicks(va: Vec, vb: Vec, n: Vec, k: real, ma: real, mb: real)
    ensures Add(Scale(Sub(Sub(va, Scale(n, k * mb)), va), ma), Scale(Sub(Add(vb, Scale(n, k * ma)), vb), mb)) == Zero
  {
    assert n.x * (k * mb) * ma == n.x * (k * ma) * mb;
    assert n.y * (k * mb) * ma == n.y * (k * ma) * mb;
  }

  /**
   * With a unit normal the relative normal velocity after a bounce between
   * two movable bodies is -1.4 times what it was: the factor 1.2 makes the
   * impulse 2.4 * dot / (mA + mB) per unit of the other's mass, so the
   * bodies leave faster than they met.
   */
  lemma {:induction false} BounceReversesNormalVelocity(a: Body, b: Body, d: real)
    requires 0.0 <= d && d * d == NormSq(Sub(b.pos, a.pos))
    requires d < a.radius + b.radius
    requires 0.0 <= Dot(Sub(a.vel, b.vel), Normal(a, b, d))
    requires !a.immovable && !b.immovable
    requires NormSq(Normal(a, b, d)) == 1.0
    ensures var r := Collide(a, b, d);
      Dot(Sub(r.a.vel, r.b.vel), Normal(a, b, d)) == -1.4 * Dot(Sub(a.vel, b.vel), Normal(a, b, d))
  {
    CollideIsSeparateThenBounce(a, b, d);
    var n := Normal(a, b, d);
    var moved := Separate(a, b, Scale(n, ((a.radius + b.radius) - d) * 0.5));
    BounceNormalSpeed(moved.0, moved.1, n);
  }

  /** The same, for the bounce alone. */
  lemma BounceNormalSpeed(a: Body, b: Body, n: Vec)
    requires 0.0 <= Dot(Sub(a.vel, b.vel), n)
    requires !a.immovable && !b.immovable
    requires NormSq(n) == 1.0
    ensures var r := Bounce(a, b, n);
      Dot(Sub(r.a.vel, r.b.vel), n) == -1.4 * Dot(Sub(a.vel, b.vel), n)
  {
    var u := Sub(a.vel, b.vel);
    var dot := Dot(u, n);
    var k := Impulse(dot, a.mass, b.mass);
    var p, q := k * b.mass, k * a.mass;
    KicksAlongNormal(a.vel, b.vel, n, p, q);
    DotSubUnit(u, n, p + q);
    ImpulseTotal(dot, a.mass, b.mass);
  }

  /** Both kicks act along n: the relative velocity loses n * (p + q). */
  lemma KicksAlongNormal(va: Vec, vb: Vec, n: Vec, p: real, q: real)
    ensures Sub(Sub(va, Scale(n, p)), Add(vb, Scale(n, q))) == Sub(Sub(va, vb), Scale(n, p + q))
  {
    assert n.x * (p + q) == n.x * p + n.x * q;
    assert n.y * (p + q) == n.y * p + n.y * q;
  }

  /** (u - n k) . n == u . n - k for a unit n. */
  lemma DotSubUnit(u: Vec, n: Vec, k: real)
    requires NormSq(n) == 1.0
    ensures Dot(Sub(u, Scale(n, k)), n) == Dot(u, n) - k
  {
    var m := n.x * n.x + n.y * n.y;
    assert Dot(Sub(u, Scale(n, k)), n) == Dot(u, n) - k * m;
  }

  /** Together the two kicks amount to 2 * 1.2 = 2.4 times the normal speed. */
  lemma ImpulseTotal(dot: real, ma: Mass, mb: Mass)
    ensures Impulse(dot, ma, mb) * mb + Impulse(dot, ma, mb) * ma == 2.4 * dot
  {
    var s := ma + mb;
    var c := (2.0 * dot) / s;
    DivMulCancel(2.0 * dot, s);
    assert c * s == 2.0 * dot;
    var k := c * PLANET_COLLISION_FACTOR;
    assert k * mb + k * ma == k * s;
    assert k * s == (c * s) * PLANET_COLLISION_FACTOR;
  }
}
