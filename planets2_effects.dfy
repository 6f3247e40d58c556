/**
 * The particle bursts of "Planets 2" (src/experiments/07-planets2.js):
 * Particle as a value (it is only ever reached through its own burst),
 * and Collision, the burst, as a class whose particle list is spliced in
 * place by a reverse loop.
 */
module Planets2Effects {
  import opened Vectors
  import Entropy
  import opened Common

  /** A new particle's lifespan, in milliseconds of deltaTime. */
  const PARTICLE_LIFESPAN: real := 150.0
  /** Multiplier applied to a particle's velocity on every update. */
  const PARTICLE_DAMPING: real := 0.97

  datatype Particle = Particle(pos: Vec, prevPos: Vec, vel: Vec, lifespan: real, initialLifespan: real, damping: real)

  /**
   * The Particle constructor: at the origin, moving along the random
   * direction dir at spread * speed (spread is p5's random(0.5, 1)).
   * A new particle is alive, with the full lifespan.
   */
  function NewParticle(origin: Vec, speed: real, dir: Vec, spread: real): (p: Particle)
    ensures p.pos == origin && p.prevPos == origin
    ensures p.lifespan == PARTICLE_LIFESPAN == p.initialLifespan && !IsDead(p)
  {
    Particle(origin, origin, Scale(dir, spread * speed), PARTICLE_LIFESPAN, PARTICLE_LIFESPAN, PARTICLE_DAMPING)
  }

  /** Particle.isDead: strictly below zero, so a lifespan of exactly 0 is still alive. */
  function IsDead(p: Particle): (dead: bool)
    ensures !dead <==> 0.0 <= p.lifespan
  {
    p.lifespan < 0.0
  }

  /**
   * Particle.update(dt): the lifespan drops by dt, the velocity is damped,
   * prevPos takes the old position and the position advances by
   * vel * dt / 16 with the damped velocity.
   */
  function Step(p: Particle, dt: real): (q: Particle)
    ensures q.lifespan == p.lifespan - dt && q.prevPos == p.pos
    ensures q.initialLifespan == p.initialLifespan && q.damping == p.damping
  {
    var vel := Scale(p.vel, p.damping);
    p.(lifespan := p.lifespan - dt, vel := vel, prevPos := p.pos, pos := Add(p.pos, Scale(vel, dt / 16.0)))
  }

  /**
   * The particles that remain after Collision.update(dt): every particle
   * stepped, the dead ones dropped, the rest in their original order.
   */
  function Survivors(ps: seq<Particle>, dt: real): (r: seq<Particle>)
    ensures |r| <= |ps|
  {
    if ps == [] then []
    else
      var q := Step(ps[0], dt);
      (if IsDead(q) then [] else [q]) + Survivors(ps[1..], dt)
  }

  /** Every survivor is alive. */
  lemma {:induction false} SurvivorsAlive(ps: seq<Particle>, dt: real)
    ensures forall q :: q in Survivors(ps, dt) ==> !IsDead(q)
  {
    if ps != [] {
      SurvivorsAlive(ps[1..], dt);
    }
  }

  /** Survivors works element by element: it distributes over concatenation, so the order is kept. */
  lemma {:induction false} SurvivorsAppend(xs: seq<Particle>, ys: seq<Particle>, dt: real)
    ensures Survivors(xs + ys, dt) == Survivors(xs, dt) + Survivors(ys, dt)
  {
    if xs == [] {
      assert xs + ys == ys;
    } else {
      assert (xs + ys)[1..] == xs[1..] + ys;
      SurvivorsAppend(xs[1..], ys, dt);
    }
  }

  /** A particle survives an update exactly when its stepped lifespan is not below zero. */
  lemma {:induction false} SurvivorsOfOne(p: Particle, dt: real)
    ensures Survivors([p], dt) == if p.lifespan - dt < 0.0 then [] else [Step(p, dt)]
  {
    assert [p][1..] == [];
  }

  /** Every survivor is a stepped particle, so its lifespan is below any bound the input was below, less dt. */
  lemma {:induction false} SurvivorsLifespanBound(ps: seq<Particle>, dt: real, bound: real)
    requires forall p :: p in ps ==> p.lifespan < bound
    ensures forall q :: q in Survivors(ps, dt) ==> q.lifespan < bound - dt
  {
    if ps != [] {
      assert ps[0] in ps;
      assert forall p :: p in ps[1..] ==> p in ps;
      SurvivorsLifespanBound(ps[1..], dt, bound);
    }
  }

  /** When every particle's lifespan runs out in this update, none survives. */
  lemma {:induction false} NoSurvivors(ps: seq<Particle>, dt: real)
    requires forall p :: p in ps ==> p.lifespan < dt
    ensures Survivors(ps, dt) == []
  {
    if ps != [] {
      assert ps[0] in ps;
      assert forall p :: p in ps[1..] ==> p in ps;
      NoSurvivors(ps[1..], dt);
    }
  }

  /** One more particle, taken from the front of the suffix ps[i..]. */
  lemma NextSurvivors(ps: seq<Particle>, i: nat, dt: real)
    requires i < |ps|
    ensures Survivors(ps[i..], dt)
      == (if IsDead(Step(ps[i], dt)) then [] else [Step(ps[i], dt)]) + Survivors(ps[i + 1..], dt)
  {
    assert ps[i..][1..] == ps[i + 1..];
  }

  /**
   * One iteration of Collision.update's reverse loop: stepping element i
   * and splicing it out when dead turns ps[..i + 1] + Survivors(ps[i + 1..])
   * into ps[..i] + Survivors(ps[i..]).
   */
  lemma SpliceStep(ps: seq<Particle>, cur: seq<Particle>, i: nat, dt: real)
    requires i < |ps| && cur == ps[..i + 1] + Survivors(ps[i + 1..], dt)
    ensures var stepped := cur[i := Step(cur[i], dt)];
      ps[..i] + Survivors(ps[i..], dt)
        == if IsDead(stepped[i]) then stepped[..i] + stepped[i + 1..] else stepped
  {
    var pre, post, y := ps[..i], Survivors(ps[i + 1..], dt), Step(ps[i], dt);
    NextSurvivors(ps, i, dt);
    assert ps[..i + 1] == pre + [ps[i]];
    Splice(pre, ps[i], post, y, !IsDead(y));
  }

  /** Replacing the element between pre and post, then splicing it out unless it is kept. */
  lemma Splice<T>(pre: seq<T>, x: T, post: seq<T>, y: T, keep: bool)
    ensures var s := (pre + [x] + post)[|pre| := y];
      && s[|pre|] == y
      && pre + ((if keep then [y] else []) + post) == if keep then s else s[..|pre|] + s[|pre| + 1..]
  {
    var s := (pre + [x] + post)[|pre| := y];
    assert s == pre + [y] + post;
    assert s[..|pre|] == pre;
    assert s[|pre| + 1..] == post;
  }

  /** Survivors applied to each of a list of particle lists (one update of each of several bursts). */
  function UpdateEach(lists: seq<seq<Particle>>, dt: real): (r: seq<seq<Particle>>)
    ensures |r| == |lists| && forall k :: 0 <= k < |lists| ==> r[k] == Survivors(lists[k], dt)
  {
    seq(|lists|, k requires 0 <= k < |lists| => Survivors(lists[k], dt))
  }

  /** A burst's particles after a series of updates. */
  function UpdateAll(ps: seq<Particle>, dts: seq<real>): seq<Particle>
    decreases |dts|
  {
    if dts == [] then ps else UpdateAll(Survivors(ps, dts[0]), dts[1..])
  }

  /**
   * Every burst finishes: once the updates add up to more than every
   * particle's lifespan, no particle is left, whatever the order in which
   * they died. Exactly the lifespan is not enough, since a lifespan of 0
   * still counts as alive (see LifespanExactlySpentSurvives).
   */
  lemma {:induction false} BurstFinishes(ps: seq<Particle>, dts: seq<real>)
    requires dts != []
    requires forall p :: p in ps ==> p.lifespan < Total(dts)
    ensures UpdateAll(ps, dts) == []
    decreases |dts|
  {
    var rest := Survivors(ps, dts[0]);
    assert Total(dts) - dts[0] == Total(dts[1..]);
    if dts[1..] == [] {
      assert Total(dts[1..]) == 0.0;
      NoSurvivors(ps, dts[0]);
    } else {
      SurvivorsLifespanBound(ps, dts[0], Total(dts));
      BurstFinishes(rest, dts[1..]);
    }
  }

  /** A particle whose whole lifespan has been used up exactly is still there. */
  lemma LifespanExactlySpentSurvives(origin: Vec, dir: Vec, spread: real, speed: real)
    ensures |Survivors([NewParticle(origin, speed, dir, spread)], PARTICLE_LIFESPAN)| == 1
  {
    SurvivorsOfOne(NewParticle(origin, speed, dir, spread), PARTICLE_LIFESPAN);
  }

  /** A burst of particles spawned at a collision (the sketch's class Collision). */
  class Collision {
    var origin: Vec
    var particles: seq<Particle>

    /**
     * new Collision(origin, numParticles, speed): exactly numParticles
     * particles, all at the origin with the full lifespan; each draws a
     * direction from random2D and a spread from random(0.5, 1).
     */
    constructor (origin: Vec, numParticles: nat, speed: real, rng: Entropy.Rng)
      modifies rng
      ensures this.origin == origin
      ensures |particles| == numParticles
      ensures forall i :: 0 <= i < numParticles ==>
        particles[i] == NewParticle(origin, speed, rng.unit(old(rng.unitsDrawn) + i),
                                    0.5 + rng.uniform(old(rng.uniformsDrawn) + i) * 0.5)
      ensures rng.unitsDrawn == old(rng.unitsDrawn) + numParticles
      ensures rng.uniformsDrawn == old(rng.uniformsDrawn) + numParticles
    {
      this.origin := origin;
      var ps: seq<Particle> := [];
      var i := 0;
      while i < numParticles
        invariant 0 <= i <= numParticles && |ps| == i
        invariant rng.unitsDrawn == old(rng.unitsDrawn) + i
        invariant rng.uniformsDrawn == old(rng.uniformsDrawn) + i
        invariant forall k :: 0 <= k < i ==>
          ps[k] == NewParticle(origin, speed, rng.unit(old(rng.unitsDrawn) + k),
                               0.5 + rng.uniform(old(rng.uniformsDrawn) + k) * 0.5)
      {
        var dir := rng.Random2D();
        var spread := rng.Random(0.5, 1.0);
        ps := ps + [NewParticle(origin, speed, dir, spread)];
        i := i + 1;
      }
      particles := ps;
    }

    /** Collision.isFinished: no particle left. */
    function IsFinished(): (finished: bool)
      reads this
      ensures finished <==> particles == []
    {
      |particles| == 0
    }

    /**
     * Collision.update(dt): from the last particle to the first, step it
     * and splice it out if it died. The outcome is Survivors: the dead
     * removed, the living stepped and kept in order.
     */
    method Update(dt: real)
      modifies this`particles
      ensures particles == Survivors(old(particles), dt)
    {
      ghost var ps0 := particles;
      var i := |particles| - 1;
      while i >= 0
        invariant -1 <= i < |ps0|
        invariant particles == ps0[..i + 1] + Survivors(ps0[i + 1..], dt)
      {
        SpliceStep(ps0, particles, i, dt);
        particles := particles[i := Step(particles[i], dt)];
        if IsDead(particles[i]) {
          particles := particles[..i] + particles[i + 1..];
        }
        i := i - 1;
      }
      assert ps0[0..] == ps0;
    }
  }
}
