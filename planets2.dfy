/**
 * The "Planets 2" sketch (src/experiments/07-planets2.js) as objects:
 * Planet, whose vectors the sketch updates in place, and Sketch, the
 * closure state (the planet list, the collision list, the mouse planet,
 * mouseCooldown and maxVelocity) with its event handlers and the physics
 * part of draw. Every Planet method is tied to the function on Body values
 * in Planets2Physics that states what it does.
 */
module Planets2 {
  import opened Vectors
  import opened Options
  import opened Common
  import opened Planets2Physics
  import opened Planets2Effects
  import Entropy
  import Planets2Audio

  const NUM_PLANETS: nat := 4
  /** The mouse planet's mass. */
  const MOUSE_MASS: Mass := 2.0
  /** Milliseconds during which a press is ignored after a double click. */
  const MOUSE_COOLDOWN: real := 1000.0

  /**
   * The state change of Planet.draw: a visible planet's lastPos becomes a
   * copy of its position (the trail segment it draws is left out); an
   * invisible planet returns before that.
   */
  function Trail(b: Body, visible: bool): (r: Body)
    ensures r == b.(lastPos := r.lastPos)
    ensures visible ==> r.lastPos == b.pos
    ensures !visible ==> r == b
  {
    if visible then b.(lastPos := b.pos) else b
  }

  /**
   * The start offset of planet i: (cos a, sin a) * 100 with a = i * 90
   * degrees (p5's map(i, 0, 4, 0, 360) in DEGREES mode); at these angles
   * cosine and sine are exactly 0, 1 or -1.
   */
  function Offset(i: nat): (v: Vec)
    requires i < NUM_PLANETS
    ensures NormSq(v) == 10000.0
  {
    if i == 0 then Vec(100.0, 0.0)
    else if i == 1 then Vec(0.0, 100.0)
    else if i == 2 then Vec(-100.0, 0.0)
    else Vec(0.0, -100.0)
  }

  /**
   * A planet of initPlanets, i-th of four, from its random direction dir
   * and its uniform draw u behind random(1, 9): mass floor(1 + 8u), radius
   * from the mass, at center + Offset(i), with velocity dir * 180 / mass.
   */
  function StartState(i: nat, center: Vec, dir: Vec, u: real): (b: Body)
    requires i < NUM_PLANETS && 0.0 <= u < 1.0
    ensures 1.0 <= b.mass <= 8.0 && b.mass == b.mass.Floor as real && !b.immovable
    ensures NormSq(Sub(b.pos, center)) == 10000.0
    ensures b.acc == Zero && b.lastPos == b.pos
  {
    var m: Mass := FloorMass(1.0 + u * 8.0);
    NewBody(m, Add(Offset(i), center), false).(vel := Div(Scale(dir, 180.0), m))
  }

  /** The four start offsets are pairwise different, so the planets start on four distinct points. */
  lemma OffsetsDistinct(i: nat, j: nat)
    requires i < NUM_PLANETS && j < NUM_PLANETS && i != j
    ensures Offset(i) != Offset(j)
  {
  }

  class Planet {
    const mass: Mass
    const radius: real
    var pos: Vec
    var vel: Vec
    var acc: Vec
    var lastPos: Vec
    const immovable: bool
    const visible: bool
    var tangible: bool

    /** The physical state the physics functions act on. */
    function State(): Body
      reads this
    {
      Body(mass, radius, pos, vel, acc, lastPos, immovable)
    }

    /** new Planet(mass, color, startPos, immovable, visible, tangible); the colour is left out. */
    constructor (mass: Mass, startPos: Vec, immovable: bool, visible: bool, tangible: bool)
      ensures State() == NewBody(mass, startPos, immovable)
      ensures this.visible == visible && this.tangible == tangible
    {
      this.mass := mass;
      this.pos := startPos;
      this.vel := Zero;
      this.acc := Zero;
      this.lastPos := startPos;
      this.immovable := immovable;
      this.visible := visible;
      this.radius := mass * 3.0 / 2.0;
      this.tangible := tangible;
    }

    /** applyForce: the acceleration gains force / mass. */
    method ApplyForce(force: Vec)
      modifies this`acc
      ensures acc == Add(old(acc), Div(force, mass))
    {
      acc := Add(acc, Div(force, mass));
    }

    /**
     * gravitate(other): the force on this planet, applied to this planet
     * and, negated, to the other, each unless immovable. The squared
     * distance must not be zero (the source divides by it).
     */
    method Gravitate(other: Planet) returns (f: Vec)
      requires other != this
      requires NormSq(Sub(other.pos, pos)) != 0.0
      modifies this`acc, other`acc
      ensures f == GravityForce(old(pos), old(other.pos), mass, other.mass)
      ensures (State(), other.State()) == Planets2Physics.Gravitate(old(State()), old(other.State()))
    {
      var r2 := NormSq(Sub(other.pos, pos));
      var fmag := GRAVITY * mass * other.mass / r2;
      f := Scale(Sub(other.pos, pos), fmag);
      if !immovable { ApplyForce(f); }
      if !other.immovable { other.ApplyForce(Neg(f)); }
    }

    /** update(dt) */
    method Update(dt: real)
      modifies this`pos, this`vel, this`lastPos, this`acc
      ensures State() == Integrate(old(State()), dt)
    {
      if immovable { return; }
      vel := Add(vel, Scale(acc, dt));
      lastPos := pos;
      pos := Add(pos, Scale(vel, dt));
      acc := Zero;
    }

    /**
     * collideEdges, against the window's width and height. The burst it
     * would push onto the sketch's collision list is returned instead.
     */
    method CollideEdges(width: real, height: real) returns (burst: Option<Burst>)
      modifies this`pos, this`vel
      ensures (State(), burst) == Planets2Physics.CollideEdges(old(State()), width, height)
    {
      var collision := false;
      if pos.x - radius < 0.0 {
        pos := pos.(x := radius);
        vel := vel.(x := vel.x * -EDGE_COLLISION_FACTOR);
        collision := true;
      } else if pos.x + radius > width {
        pos := pos.(x := width - radius);
        vel := vel.(x := vel.x * -EDGE_COLLISION_FACTOR);
        collision := true;
      }
      if pos.y - radius < 0.0 {
        pos := pos.(y := radius);
        vel := vel.(y := vel.y * -EDGE_COLLISION_FACTOR);
        collision := true;
      } else if pos.y + radius > height {
        pos := pos.(y := height - radius);
        vel := vel.(y := vel.y * -EDGE_COLLISION_FACTOR);
        collision := true;
      }
      burst := if collision then Some(Burst(pos, 20, 5.0)) else None;
    }

    /**
     * collide(other). impact.normalize() normalises impact in place, so the
     * impulse is applied along the unit normal. The burst is returned.
     */
    method Collide(other: Planet, sqrt: real -> real) returns (burst: Option<Burst>)
      requires other != this && IsSqrt(sqrt)
      modifies this`pos, this`vel, other`pos, other`vel
      ensures PairOutcome(State(), other.State(), burst)
        == Planets2Physics.Collide(old(State()), old(other.State()), sqrt(NormSq(Sub(old(other.pos), old(pos)))))
    {
      var impact := Sub(other.pos, pos);
      var d := sqrt(NormSq(impact));
      NormSqNonNegative(impact);
      burst := None;
      if d < radius + other.radius {
        var overlap := (radius + other.radius) - d;
        var n := Normalize(impact, d);
        var correction := Scale(n, overlap * 0.5);
        Separate(other, correction);
        burst := Bounce(other, n);
      }
    }

    /** The first half of collide: the correction is subtracted from each movable planet's position. */
    method Separate(other: Planet, correction: Vec)
      requires other != this
      modifies this`pos, other`pos
      ensures (State(), other.State()) == Planets2Physics.Separate(old(State()), old(other.State()), correction)
    {
      if !immovable { pos := Sub(pos, correction); }
      if !other.immovable { other.pos := Sub(other.pos, correction); }
    }

    /** The second half of collide: the bounce along the unit normal n, and its burst. */
    method Bounce(other: Planet, n: Vec) returns (burst: Option<Burst>)
      requires other != this
      modifies this`vel, other`vel
      ensures PairOutcome(State(), other.State(), burst) == Planets2Physics.Bounce(old(State()), old(other.State()), n)
    {
      ghost var a0, b0 := State(), other.State();
      var dot := Dot(Sub(vel, other.vel), n);
      if dot < 0.0 { return None; }
      var impulse := Impulse(dot, mass, other.mass);
      var ka, kb := Scale(n, impulse * other.mass), Scale(n, impulse * mass);
      assert a0.vel == vel && b0.vel == other.vel && a0.mass == mass && b0.mass == other.mass;
      assert impulse == Impulse(Dot(Sub(a0.vel, b0.vel), n), a0.mass, b0.mass);
      assert Kicks(a0, b0, n).0 == ka;
      assert Kicks(a0, b0, n).1 == kb;
      if !immovable { vel := Sub(vel, ka); }
      if !other.immovable { other.vel := Add(other.vel, kb); }
      burst := Some(Burst(Add(pos, Scale(n, radius)), 15, 3.0));
    }

    /** The state change of draw: see Trail. */
    method Draw()
      modifies this`lastPos
      ensures State() == Trail(old(State()), visible)
    {
      if !visible { return; }
      lastPos := pos;
    }
  }

  /**
   * The bursts of cs whose particle list (lists, index for index) is not
   * empty, in order: what draw's pruning loop keeps, given each burst's
   * particles after its update.
   */
  function Kept<T, P>(cs: seq<T>, lists: seq<seq<P>>): (r: seq<T>)
    requires |lists| == |cs|
    ensures |r| <= |cs|
  {
    if cs == [] then []
    else (if |lists[0]| == 0 then [] else [cs[0]]) + Kept(cs[1..], lists[1..])
  }

  /** Kept of the suffixes from i, one element further. */
  lemma NextKept<T, P>(cs: seq<T>, lists: seq<seq<P>>, i: nat)
    requires |lists| == |cs| && i < |cs|
    ensures Kept(cs[i..], lists[i..]) == (if |lists[i]| == 0 then [] else [cs[i]]) + Kept(cs[i + 1..], lists[i + 1..])
  {
    assert cs[i..][1..] == cs[i + 1..];
    assert lists[i..][1..] == lists[i + 1..];
  }

  /** Every kept element is one of the list's. */
  lemma {:induction false} KeptFrom<T, P>(cs: seq<T>, lists: seq<seq<P>>)
    requires |lists| == |cs|
    ensures forall c :: c in Kept(cs, lists) ==> c in cs
  {
    if cs != [] {
      KeptFrom(cs[1..], lists[1..]);
      assert forall c :: c in cs[1..] ==> c in cs;
    }
  }

  /**
   * In a list without repetitions an element is kept exactly when its list
   * is not empty, and the kept elements are again without repetitions.
   */
  lemma {:induction false} KeptExactly<T, P>(cs: seq<T>, lists: seq<seq<P>>)
    requires |lists| == |cs| && Distinct(cs)
    ensures Distinct(Kept(cs, lists))
    ensures forall k :: 0 <= k < |cs| ==> (cs[k] in Kept(cs, lists) <==> |lists[k]| != 0)
  {
    if cs != [] {
      var tail, rest := cs[1..], Kept(cs[1..], lists[1..]);
      assert Distinct(tail) by {
        forall k, l | 0 <= k < l < |tail| ensures tail[k] != tail[l] {
          assert tail[k] == cs[k + 1] && tail[l] == cs[l + 1];
        }
      }
      KeptExactly(tail, lists[1..]);
      KeptFrom(tail, lists[1..]);
      assert cs[0] !in tail by {
        forall m | 0 <= m < |tail| ensures tail[m] != cs[0] { assert tail[m] == cs[m + 1]; }
      }
      var r := Kept(cs, lists);
      assert r == (if |lists[0]| == 0 then [] else [cs[0]]) + rest;
      forall k, l | 0 <= k < l < |r| ensures r[k] != r[l] {
        if |lists[0]| != 0 && k == 0 {
          assert r[l] == rest[l - 1] && rest[l - 1] in rest;
        } else if |lists[0]| != 0 {
          assert r[k] == rest[k - 1] && r[l] == rest[l - 1];
        }
      }
      forall k | 0 <= k < |cs| ensures cs[k] in r <==> |lists[k]| != 0 {
        if k > 0 {
          assert cs[k] == tail[k - 1] && lists[k] == lists[1..][k - 1];
          assert cs[k] != cs[0];
        }
      }
    }
  }

  // ------------------------------------------------- the planet loop, on values

  /**
   * What one run of draw's planet loop depends on besides the planets'
   * states: each planet's tangible and visible flags (the loop changes
   * neither), the window, the scaled time step and the square root that
   * collide's mag uses.
   */
  datatype Loop = Loop(tangible: seq<bool>, visible: seq<bool>, width: real, height: real, dt: real, sqrt: real -> real)

  /** A loop over n planets: one pair of flags per planet, and sqrt a square root. */
  ghost predicate Fits(l: Loop, n: nat)
  {
    |l.tangible| == n && |l.visible| == n && IsSqrt(l.sqrt)
  }

  /** The planets part way through the loop, and the bursts reported so far, in the order they were pushed. */
  datatype Scene = Scene(bodies: seq<Body>, bursts: seq<Burst>)

  /** The bursts one step pushes: the one it reported, if any. */
  function Reported(burst: Option<Burst>): seq<Burst>
  {
    if burst.Some? then [burst.value] else []
  }

  /** Mass, radius and immovability, which nothing in the loop changes. */
  predicate SameKind(a: Body, b: Body)
  {
    a.mass == b.mass && a.radius == b.radius && a.immovable == b.immovable
  }

  /**
   * a.gravitate(b), except that the model skips the pull of two planets on
   * one point (the source divides by their squared distance there).
   */
  function Pulled(a: Body, b: Body): (r: (Body, Body))
    ensures r.0 == a.(acc := r.0.acc) && r.1 == b.(acc := r.1.acc)
    ensures a.immovable ==> r.0 == a
    ensures b.immovable ==> r.1 == b
  {
    if NormSq(Sub(b.pos, a.pos)) == 0.0 then (a, b) else Gravitate(a, b)
  }

  /**
   * The body of the inner loop for two tangible planets: a.gravitate(b)
   * (see Pulled), then a.collide(b) at the distance sqrt gives.
   */
  function Interaction(a: Body, b: Body, sqrt: real -> real): (r: PairOutcome)
    requires IsSqrt(sqrt)
    ensures SameKind(r.a, a) && SameKind(r.b, b)
    ensures a.immovable ==> r.a == a
    ensures b.immovable ==> r.b == b
  {
    var g := Pulled(a, b);
    NormSqNonNegative(Sub(g.1.pos, g.0.pos));
    Collide(g.0, g.1, sqrt(NormSq(Sub(g.1.pos, g.0.pos))))
  }

  /**
   * Gravitation and collision together conserve the momentum of two
   * movable planets: the mass-weighted changes of their velocities cancel,
   * and so do those of their accelerations.
   */
  lemma InteractionConservesMomentum(a: Body, b: Body, sqrt: real -> real)
    requires IsSqrt(sqrt) && !a.immovable && !b.immovable
    ensures var r := Interaction(a, b, sqrt);
      && Add(Scale(Sub(r.a.vel, a.vel), a.mass), Scale(Sub(r.b.vel, b.vel), b.mass)) == Zero
      && Add(Scale(Sub(r.a.acc, a.acc), a.mass), Scale(Sub(r.b.acc, b.acc), b.mass)) == Zero
  {
    var g := Pulled(a, b);
    var q := NormSq(Sub(g.1.pos, g.0.pos));
    NormSqNonNegative(Sub(g.1.pos, g.0.pos));
    var d := sqrt(q);
    assert 0.0 <= d && d * d == q;
    CollideConservesMomentum(g.0, g.1, d);
    PulledConservesMomentum(a, b);
  }

  /** The pull leaves the velocities alone and changes the accelerations by opposite momenta. */
  lemma PulledConservesMomentum(a: Body, b: Body)
    requires !a.immovable && !b.immovable
    ensures var g := Pulled(a, b);
      Add(Scale(Sub(g.0.acc, a.acc), a.mass), Scale(Sub(g.1.acc, b.acc), b.mass)) == Zero
  {
    if NormSq(Sub(b.pos, a.pos)) != 0.0 {
      GravitateConservesMomentum(a, b);
    }
  }

  /** collide leaves the accelerations alone and changes the velocities by opposite momenta. */
  lemma CollideConservesMomentum(a: Body, b: Body, d: real)
    requires 0.0 <= d && d * d == NormSq(Sub(b.pos, a.pos))
    requires !a.immovable && !b.immovable
    ensures var r := Collide(a, b, d);
      Add(Scale(Sub(r.a.vel, a.vel), a.mass), Scale(Sub(r.b.vel, b.vel), b.mass)) == Zero
  {
    if d < a.radius + b.radius {
      if Dot(Sub(a.vel, b.vel), Normal(a, b, d)) < 0.0 {
        SeparatingBodiesDoNotBounce(a, b, d);
      } else {
        BounceConservesMomentum(a, b, d);
      }
    }
  }

  /** One pass of the inner loop on the pair (i, j): skipped unless both planets are tangible. */
  function PairAt(s: Scene, i: nat, j: nat, l: Loop): (r: Scene)
    requires i < j < |s.bodies| && Fits(l, |s.bodies|)
    ensures |r.bodies| == |s.bodies|
  {
    if !(l.tangible[i] && l.tangible[j]) then s
    else
      var o := Interaction(s.bodies[i], s.bodies[j], l.sqrt);
      Scene(s.bodies[i := o.a][j := o.b], s.bursts + Reported(o.burst))
  }

  /** The inner loop of planet i, from j on, as the loop runs it. */
  function RowFrom(s: Scene, i: nat, j: nat, l: Loop): (r: Scene)
    requires i < j <= |s.bodies| && Fits(l, |s.bodies|)
    ensures |r.bodies| == |s.bodies|
    decreases |s.bodies| - j
  {
    if j == |s.bodies| then s else RowFrom(PairAt(s, i, j, l), i, j + 1, l)
  }

  /** Planet i's turn in the loop: collideEdges, its row of pairs, then update and draw. */
  function Turn(s: Scene, i: nat, l: Loop): (r: Scene)
    requires i < |s.bodies| && Fits(l, |s.bodies|)
    ensures |r.bodies| == |s.bodies|
  {
    Finished(RowFrom(Edged(s, i, l), i, i + 1, l), i, l)
  }

  /** The start of planet i's turn: collideEdges, and the burst it reports. */
  function Edged(s: Scene, i: nat, l: Loop): (r: Scene)
    requires i < |s.bodies| && Fits(l, |s.bodies|)
    ensures |r.bodies| == |s.bodies|
  {
    var edged := CollideEdges(s.bodies[i], l.width, l.height);
    Scene(s.bodies[i := edged.0], s.bursts + Reported(edged.1))
  }

  /** The end of planet i's turn: update, then draw. */
  function Finished(s: Scene, i: nat, l: Loop): (r: Scene)
    requires i < |s.bodies| && Fits(l, |s.bodies|)
    ensures |r.bodies| == |s.bodies|
  {
    Scene(s.bodies[i := Trail(Integrate(s.bodies[i], l.dt), l.visible[i])], s.bursts)
  }

  /** The planet loop from planet i on. */
  function TurnsFrom(s: Scene, i: nat, l: Loop): (r: Scene)
    requires i <= |s.bodies| && Fits(l, |s.bodies|)
    ensures |r.bodies| == |s.bodies|
    decreases |s.bodies| - i
  {
    if i == |s.bodies| then s else TurnsFrom(Turn(s, i, l), i + 1, l)
  }

  /** The planet loop of one frame of draw: every planet's turn, in list order, starting with no bursts. */
  function Frame(bs: seq<Body>, l: Loop): (r: Scene)
    requires Fits(l, |bs|)
    ensures |r.bodies| == |bs|
  {
    TurnsFrom(Scene(bs, []), 0, l)
  }

  /** A planet no pair changes: intangible, or immovable. */
  predicate Inert(b: Body, tangible: bool)
  {
    !tangible || b.immovable
  }

  /** A planet's turn when no pair changes it: collideEdges, update, draw. */
  function Alone(b: Body, k: nat, l: Loop): Body
    requires k < |l.visible|
  {
    Trail(Integrate(CollideEdges(b, l.width, l.height).0, l.dt), l.visible[k])
  }

  /** A pair step changes its two planets alone, never an inert one, and no planet's kind. */
  lemma PairAtFrame(s: Scene, i: nat, j: nat, l: Loop)
    requires i < j < |s.bodies| && Fits(l, |s.bodies|)
    ensures var r := PairAt(s, i, j, l).bodies;
      && (forall k :: 0 <= k < |r| && k != i && k != j ==> r[k] == s.bodies[k])
      && (forall k :: 0 <= k < |r| ==> SameKind(r[k], s.bodies[k]))
      && (forall k :: 0 <= k < |r| && Inert(s.bodies[k], l.tangible[k]) ==> r[k] == s.bodies[k])
  {
  }

  /** The rest of row i changes planet i and the planets from j on alone, never an inert one. */
  lemma {:induction false} RowFromFrame(s: Scene, i: nat, j: nat, l: Loop)
    requires i < j <= |s.bodies| && Fits(l, |s.bodies|)
    ensures var r := RowFrom(s, i, j, l).bodies;
      && (forall k :: 0 <= k < j && k != i ==> r[k] == s.bodies[k])
      && (forall k :: 0 <= k < |r| ==> SameKind(r[k], s.bodies[k]))
      && (forall k :: 0 <= k < |r| && Inert(s.bodies[k], l.tangible[k]) ==> r[k] == s.bodies[k])
    decreases |s.bodies| - j
  {
    if j < |s.bodies| {
      var t := PairAt(s, i, j, l);
      PairAtFrame(s, i, j, l);
      RowFromFrame(t, i, j + 1, l);
    }
  }

  /**
   * Planet i's turn changes planet i and the later planets alone, never an
   * inert one other than i; planet i, if inert, ends as Alone; if movable,
   * with zero acceleration; if visible, with lastPos at its position.
   */
  lemma TurnFrame(s: Scene, i: nat, l: Loop)
    requires i < |s.bodies| && Fits(l, |s.bodies|)
    ensures var r := Turn(s, i, l).bodies;
      && (forall k :: 0 <= k < i ==> r[k] == s.bodies[k])
      && (forall k :: 0 <= k < |r| ==> SameKind(r[k], s.bodies[k]))
      && (forall k :: 0 <= k < |r| && k != i && Inert(s.bodies[k], l.tangible[k]) ==> r[k] == s.bodies[k])
      && (Inert(s.bodies[i], l.tangible[i]) ==> r[i] == Alone(s.bodies[i], i, l))
      && (!s.bodies[i].immovable ==> r[i].acc == Zero)
      && (l.visible[i] ==> r[i].lastPos == r[i].pos)
  {
    RowFromFrame(Edged(s, i, l), i, i + 1, l);
  }

  /** The loop from planet i on: see FrameSteps. */
  lemma {:induction false} TurnsFromSteps(s: Scene, i: nat, l: Loop)
    requires i <= |s.bodies| && Fits(l, |s.bodies|)
    ensures var r := TurnsFrom(s, i, l).bodies;
      && (forall k :: 0 <= k < i ==> r[k] == s.bodies[k])
      && (forall k :: 0 <= k < |r| ==> SameKind(r[k], s.bodies[k]))
      && (forall k :: i <= k < |r| && Inert(s.bodies[k], l.tangible[k]) ==> r[k] == Alone(s.bodies[k], k, l))
      && (forall k :: i <= k < |r| && !s.bodies[k].immovable ==> r[k].acc == Zero)
      && (forall k :: i <= k < |r| && l.visible[k] ==> r[k].lastPos == r[k].pos)
    decreases |s.bodies| - i
  {
    if i < |s.bodies| {
      var t := Turn(s, i, l);
      TurnFrame(s, i, l);
      TurnsFromSteps(t, i + 1, l);
    }
  }

  /**
   * What one frame's planet loop does to each planet. No planet changes its
   * mass, radius or immovability. An intangible planet takes part in no
   * pair: it goes through collideEdges, update and draw alone. An immovable
   * one is only clamped by collideEdges. Every movable planet ends the
   * frame with zero acceleration, and every visible one with lastPos at its
   * position.
   */
  lemma FrameSteps(bs: seq<Body>, l: Loop)
    requires Fits(l, |bs|)
    ensures var r := Frame(bs, l).bodies;
      forall k :: 0 <= k < |bs| ==>
        && SameKind(r[k], bs[k])
        && (!l.tangible[k] ==> r[k] == Trail(Integrate(CollideEdges(bs[k], l.width, l.height).0, l.dt), l.visible[k]))
        && (bs[k].immovable ==> r[k] == Trail(CollideEdges(bs[k], l.width, l.height).0, l.visible[k]))
        && (!bs[k].immovable ==> r[k].acc == Zero)
        && (l.visible[k] ==> r[k].lastPos == r[k].pos)
  {
    TurnsFromSteps(Scene(bs, []), 0, l);
  }

  /** The closure state of the sketch. */
  class Sketch {
    /** innerWidth and innerHeight. */
    const width: real
    const height: real
    /** The immovable, invisible planet that follows the pointer; its position vector is CENTER itself. */
    const mousePlanet: Planet
    var planets: seq<Planet>
    var collisions: seq<Collision>
    var mouseCooldown: real
    /** Written by the mouse handlers; nothing in this sketch reads it. */
    var maxVelocity: real

    /** No planet and no burst is listed twice. */
    ghost predicate Valid()
      reads this
    {
      Distinct(planets) && Distinct(collisions)
    }

    /**
     * CENTER: the mouse planet is constructed with CENTER as its position
     * vector, and the mouse handlers write into that vector, so CENTER is
     * wherever the pointer last was (or where collideEdges clamped it).
     */
    function Center(): Vec
      reads mousePlanet
    {
      mousePlanet.pos
    }

    /** The sketch before setup: no planets, no bursts, cooldown 0, maxVelocity 1200. */
    constructor (width: real, height: real)
      ensures this.width == width && this.height == height
      ensures planets == [] && collisions == [] && mouseCooldown == 0.0 && maxVelocity == 1200.0
      ensures fresh(mousePlanet)
      ensures mousePlanet.State() == NewBody(MOUSE_MASS, Vec(width / 2.0, height / 2.0), true)
      ensures !mousePlanet.visible && !mousePlanet.tangible
      ensures Center() == Vec(width / 2.0, height / 2.0)
      ensures Valid()
    {
      this.width := width;
      this.height := height;
      mousePlanet := new Planet(MOUSE_MASS, Vec(width / 2.0, height / 2.0), true, false, false);
      planets := [];
      collisions := [];
      mouseCooldown := 0.0;
      maxVelocity := 1200.0;
    }

    /**
     * initPlanets: four new planets (see StartState), drawing from the
     * random streams in the source's order; then the mouse planet is
     * appended.
     */
    method InitPlanets(rng: Entropy.Rng)
      requires planets == [] && Valid() && rng.Valid()
      modifies this`planets, rng
      ensures |planets| == NUM_PLANETS + 1 && planets[NUM_PLANETS] == mousePlanet
      ensures rng.unitsDrawn == old(rng.unitsDrawn) + NUM_PLANETS
      ensures rng.uniformsDrawn == old(rng.uniformsDrawn) + 3 * NUM_PLANETS
      ensures forall k :: 0 <= k < NUM_PLANETS ==>
        && fresh(planets[k]) && planets[k].visible && planets[k].tangible
        && planets[k].State()
             == StartState(k, Center(), rng.unit(old(rng.unitsDrawn) + k), rng.uniform(old(rng.uniformsDrawn) + 3 * k))
      ensures Valid()
    {
      var i := 0;
      while i < NUM_PLANETS
        invariant 0 <= i <= NUM_PLANETS && |planets| == i
        invariant rng.unitsDrawn == old(rng.unitsDrawn) + i
        invariant rng.uniformsDrawn == old(rng.uniformsDrawn) + 3 * i
        invariant forall k :: 0 <= k < i ==>
          && fresh(planets[k]) && planets[k].visible && planets[k].tangible
          && planets[k].State()
               == StartState(k, Center(), rng.unit(old(rng.unitsDrawn) + k), rng.uniform(old(rng.uniformsDrawn) + 3 * k))
        invariant Distinct(planets)
      {
        var p := NewPlanet(i, rng);
        planets := planets + [p];
        i := i + 1;
      }
      planets := planets + [mousePlanet];
    }

    /**
     * One pass of initPlanets' loop: rand = random2D() * 180 (normalize
     * leaves a unit vector as it is), the mass floor(random(1, 9)), the
     * colour's two draws (the colour itself is left out), the planet at
     * CENTER + Offset(i), and its velocity rand / mass.
     */
    method NewPlanet(i: nat, rng: Entropy.Rng) returns (p: Planet)
      requires i < NUM_PLANETS && rng.Valid()
      modifies rng
      ensures fresh(p) && p.visible && p.tangible
      ensures p.State() == StartState(i, Center(), rng.unit(old(rng.unitsDrawn)), rng.uniform(old(rng.uniformsDrawn)))
      ensures rng.unitsDrawn == old(rng.unitsDrawn) + 1
      ensures rng.uniformsDrawn == old(rng.uniformsDrawn) + 3
    {
      var dir := rng.Random2D();
      var rand := Scale(dir, 180.0);
      var r := rng.Random(1.0, 9.0);
      var _ := rng.Random(0.0, 255.0);
      var _ := rng.Random(20.0, 150.0);
      p := PlaceAt(i, rand, FloorMass(r));
    }

    /** The planet of initPlanets' loop, once its random draws are made: mass, position and velocity rand / mass. */
    method PlaceAt(i: nat, rand: Vec, mass: Mass) returns (p: Planet)
      requires i < NUM_PLANETS
      ensures fresh(p) && p.visible && p.tangible
      ensures p.State() == NewBody(mass, Add(Offset(i), Center()), false).(vel := Div(rand, mass))
    {
      p := new Planet(mass, Add(Offset(i), Center()), false, true, true);
      p.vel := Add(p.vel, Div(rand, p.mass));
    }

    /**
     * setup: installs audioControl, then initPlanets (the four StartState
     * planets and the mouse planet). The canvas, buffers and synthesiser
     * are left out.
     */
    method Setup(rng: Entropy.Rng, sound: Planets2Audio.Sound)
      requires planets == [] && Valid() && rng.Valid()
      modifies this`planets, rng, sound`hasControl
      ensures sound.State() == old(sound.State()).(hasControl := true)
      ensures |planets| == NUM_PLANETS + 1 && planets[NUM_PLANETS] == mousePlanet
      ensures rng.unitsDrawn == old(rng.unitsDrawn) + NUM_PLANETS
      ensures rng.uniformsDrawn == old(rng.uniformsDrawn) + 3 * NUM_PLANETS
      ensures forall k :: 0 <= k < NUM_PLANETS ==>
        && fresh(planets[k]) && planets[k].visible && planets[k].tangible
        && planets[k].State()
             == StartState(k, Center(), rng.unit(old(rng.unitsDrawn) + k), rng.uniform(old(rng.uniformsDrawn) + 3 * k))
      ensures Valid()
    {
      sound.InstallControl();
      InitPlanets(rng);
    }

    /**
     * doubleClicked: the planet list is rebuilt by initPlanets around
     * CENTER (the mouse planet, re-appended, keeps its state) and mouse
     * presses are ignored for the next MOUSE_COOLDOWN milliseconds.
     * Clearing the trails is left out.
     */
    method DoubleClicked(rng: Entropy.Rng)
      requires Valid() && rng.Valid()
      modifies this`planets, this`mouseCooldown, rng
      ensures mouseCooldown == MOUSE_COOLDOWN
      ensures |planets| == NUM_PLANETS + 1 && planets[NUM_PLANETS] == mousePlanet
      ensures rng.unitsDrawn == old(rng.unitsDrawn) + NUM_PLANETS
      ensures rng.uniformsDrawn == old(rng.uniformsDrawn) + 3 * NUM_PLANETS
      ensures forall k :: 0 <= k < NUM_PLANETS ==>
        && fresh(planets[k]) && planets[k].visible && planets[k].tangible
        && planets[k].State()
             == StartState(k, Center(), rng.unit(old(rng.unitsDrawn) + k), rng.uniform(old(rng.uniformsDrawn) + 3 * k))
      ensures Valid()
    {
      planets := [];
      InitPlanets(rng);
      mouseCooldown := MOUSE_COOLDOWN;
    }

    /** mouseMoved and mouseDragged: the mouse planet, and with it CENTER, moves to the pointer. */
    method MovePointer(mouseX: real, mouseY: real)
      modifies mousePlanet`pos
      ensures Center() == mousePlanet.pos == Vec(mouseX, mouseY)
    {
      mousePlanet.pos := mousePlanet.pos.(x := mouseX);
      mousePlanet.pos := mousePlanet.pos.(y := mouseY);
    }

    /** mousePressed: ignored during the cooldown; otherwise the mouse planet takes part in the physics. */
    method MousePressed()
      modifies mousePlanet`tangible, this`maxVelocity
      ensures old(mouseCooldown) > 0.0 ==> mousePlanet.tangible == old(mousePlanet.tangible) && maxVelocity == old(maxVelocity)
      ensures old(mouseCooldown) <= 0.0 ==> mousePlanet.tangible && maxVelocity == 400.0
    {
      if mouseCooldown > 0.0 { return; }
      mousePlanet.tangible := true;
      maxVelocity := 400.0;
    }

    /** mouseReleased: the mouse planet leaves the physics again. */
    method MouseReleased()
      modifies mousePlanet`tangible, this`maxVelocity
      ensures !mousePlanet.tangible && maxVelocity == 800.0
    {
      mousePlanet.tangible := false;
      maxVelocity := 800.0;
    }

    /** Pushes a new Collision for a burst that collideEdges or collide reported. */
    method Spawn(burst: Option<Burst>, rng: Entropy.Rng)
      requires Valid()
      modifies this`collisions, rng
      ensures Valid()
      ensures burst == None ==> collisions == old(collisions)
      ensures burst.Some? ==> |collisions| == |old(collisions)| + 1 && collisions[..|old(collisions)|] == old(collisions)
      ensures burst.Some? ==>
        && fresh(collisions[|old(collisions)|])
        && collisions[|old(collisions)|].origin == burst.value.origin
        && |collisions[|old(collisions)|].particles| == burst.value.count
      ensures Matches(collisions[|old(collisions)|..], Reported(burst))
    {
      if burst.Some? {
        var c := new Collision(burst.value.origin, burst.value.count, burst.value.speed, rng);
        collisions := collisions + [c];
      }
    }

    /**
     * The first loop of draw: from the last burst to the first, update it
     * and splice it out when it is finished. Every burst's particles are
     * updated (see Survivors), and the bursts left over are those whose
     * updated particle list is not empty, in their order.
     */
    method PruneEffects(dt: real)
      requires Valid()
      modifies this`collisions, collisions
      ensures Valid()
      ensures Lists(old(collisions)) == UpdateEach(old(Lists(collisions)), dt)
      ensures collisions == Kept(old(collisions), UpdateEach(old(Lists(collisions)), dt))
    {
      ghost var cs0 := collisions;
      ghost var ps0 := Lists(cs0);
      ghost var after := UpdateEach(ps0, dt);
      var i := |collisions| - 1;
      while i >= 0
        invariant -1 <= i < |cs0|
        invariant collisions == cs0[..i + 1] + Kept(cs0[i + 1..], after[i + 1..])
        invariant Lists(cs0) == ps0[..i + 1] + after[i + 1..]
      {
        assert Lists(cs0)[i] == ps0[i];
        PruneAt(i, cs0, after, dt);
        Advance(ps0, after, i);
        i := i - 1;
      }
      assert cs0[0..] == cs0 && after[0..] == after;
      KeptExactly(cs0, after);
    }

    /**
     * One pass of the pruning loop over the original list cs0, given the
     * particle lists after every update: burst i is updated and spliced
     * out when finished; the bursts after it have already been pruned.
     */
    method PruneAt(i: nat, ghost cs0: seq<Collision>, ghost after: seq<seq<Particle>>, dt: real)
      requires i < |cs0| == |after| && Distinct(cs0)
      requires after[i] == Survivors(cs0[i].particles, dt)
      requires collisions == cs0[..i + 1] + Kept(cs0[i + 1..], after[i + 1..])
      modifies this`collisions, cs0[i]
      ensures collisions == cs0[..i] + Kept(cs0[i..], after[i..])
      ensures Lists(cs0) == old(Lists(cs0))[i := after[i]]
    {
      var effect := collisions[i];
      assert effect == cs0[i];
      UpdateAt(effect, i, cs0, dt);
      NextKept(cs0, after, i);
      if effect.IsFinished() {
        collisions := collisions[..i] + collisions[i + 1..];
      }
    }

    /** The update of burst i, which changes no other burst's particles. */
    method UpdateAt(effect: Collision, i: nat, ghost cs0: seq<Collision>, dt: real)
      requires i < |cs0| && cs0[i] == effect && Distinct(cs0)
      modifies effect
      ensures Lists(cs0) == old(Lists(cs0))[i := Survivors(old(effect.particles), dt)]
    {
      ghost var before := Lists(cs0);
      effect.Update(dt);
      assert Lists(cs0) == before[i := effect.particles] by {
        forall k | 0 <= k < |cs0| && k != i ensures cs0[k] != effect {}
      }
    }

    /**
     * The planet loop of draw, with dt already scaled to
     * deltaTime / 1000 * TIMESCALE and l describing the loop (see Runs):
     * the planets end as Frame of their states before (see FrameSteps for
     * what that does to each planet), and bursts
     * are the bursts the frame reports, in the order the loop reports them
     * (draw makes one Collision of each, see SpawnAll). coincident reports
     * a pair of tangible planets on one point, whose gravitation the model
     * skips.
     */
    method StepPlanets(dt: real, sqrt: real -> real, ghost l: Loop) returns (coincident: bool, bursts: seq<Burst>)
      requires Valid() && Runs(l) && l.dt == dt && l.sqrt == sqrt
      modifies planets`pos, planets`vel, planets`acc, planets`lastPos
      ensures Runs(l)
      ensures var r := Frame(old(States(planets)), l); States(planets) == r.bodies && bursts == r.bursts
    {
      ghost var s0 := States(planets);
      coincident, bursts := false, [];
      var i := 0;
      while i < |planets|
        invariant 0 <= i <= |planets|
        invariant Valid() && Runs(l) && l.dt == dt && l.sqrt == sqrt
        invariant TurnsFrom(Scene(States(planets), bursts), i, l) == Frame(s0, l)
      {
        ghost var cur := Scene(States(planets), bursts);
        assert TurnsFrom(cur, i, l) == TurnsFrom(Turn(cur, i, l), i + 1, l);
        var c;
        c, bursts := StepOne(i, dt, sqrt, bursts, l);
        coincident := coincident || c;
        i := i + 1;
      }
    }

    /** Planet i's turn in the planet loop: see Turn. */
    method StepOne(i: nat, dt: real, sqrt: real -> real, bursts: seq<Burst>, ghost l: Loop)
      returns (coincident: bool, bursts': seq<Burst>)
      requires Valid() && Runs(l) && l.dt == dt && l.sqrt == sqrt && i < |planets|
      modifies planets`pos, planets`vel, planets`acc, planets`lastPos
      ensures Runs(l)
      ensures Scene(States(planets), bursts') == Turn(Scene(old(States(planets)), bursts), i, l)
    {
      var edged := Edges(i, bursts, l);
      coincident, bursts' := PairsOf(i, sqrt, edged, l);
      Finish(i, dt, l, Scene(States(planets), bursts'));
    }

    /** The start of planet i's turn: collideEdges, and the burst it reports (see Edged). */
    method Edges(i: nat, bursts: seq<Burst>, ghost l: Loop) returns (bursts': seq<Burst>)
      requires Valid() && Runs(l) && i < |planets|
      modifies planets`pos, planets`vel
      ensures Scene(States(planets), bursts') == Edged(Scene(old(States(planets)), bursts), i, l)
    {
      var a := planets[i];
      assert forall k :: 0 <= k < |planets| && k != i ==> planets[k] != a;
      var burst := a.CollideEdges(width, height);
      bursts' := bursts + Reported(burst);
    }

    /** The end of planet i's turn: update, then draw (see Finished). */
    method Finish(i: nat, dt: real, ghost l: Loop, ghost s: Scene)
      requires Valid() && Runs(l) && l.dt == dt && i < |planets| && s.bodies == States(planets)
      modifies planets`pos, planets`vel, planets`acc, planets`lastPos
      ensures States(planets) == Finished(s, i, l).bodies
    {
      var a := planets[i];
      assert forall k :: 0 <= k < |planets| && k != i ==> planets[k] != a;
      a.Update(dt);
      a.Draw();
    }

    /** The inner loop of planet i: every later planet as a pair, skipping pairs with an intangible planet. */
    method PairsOf(i: nat, sqrt: real -> real, bursts: seq<Burst>, ghost l: Loop)
      returns (coincident: bool, bursts': seq<Burst>)
      requires Valid() && Runs(l) && l.sqrt == sqrt && i < |planets|
      modifies planets`pos, planets`vel, planets`acc
      ensures Scene(States(planets), bursts') == RowFrom(Scene(old(States(planets)), bursts), i, i + 1, l)
    {
      coincident, bursts' := false, bursts;
      var j := i + 1;
      while j < |planets|
        invariant i + 1 <= j <= |planets|
        invariant RowFrom(Scene(States(planets), bursts'), i, j, l) == RowFrom(Scene(old(States(planets)), bursts), i, i + 1, l)
      {
        var c;
        c, bursts' := Pair(i, j, sqrt, bursts', l);
        coincident := coincident || c;
        j := j + 1;
      }
    }

    /** One pass of the inner loop, on the pair (i, j): see PairAt. */
    method Pair(i: nat, j: nat, sqrt: real -> real, bursts: seq<Burst>, ghost l: Loop)
      returns (coincident: bool, bursts': seq<Burst>)
      requires Valid() && Runs(l) && l.sqrt == sqrt && i < j < |planets|
      modifies planets`pos, planets`vel, planets`acc
      ensures Scene(States(planets), bursts') == PairAt(Scene(old(States(planets)), bursts), i, j, l)
    {
      var a, b := planets[i], planets[j];
      coincident, bursts' := false, bursts;
      if !(a.tangible && b.tangible) { return; }
      ghost var s := States(planets);
      assert forall k :: 0 <= k < |planets| && k != i && k != j ==> planets[k] != a && planets[k] != b;
      var burst;
      coincident, burst := Interact(a, b, sqrt);
      bursts' := bursts + Reported(burst);
      ghost var o := Interaction(s[i], s[j], sqrt);
      assert States(planets) == s[i := o.a][j := o.b];
    }

    /**
     * One pair of the inner loop, both planets tangible: gravitate, then
     * collide, returning the burst collide reports (see Interaction).
     */
    method Interact(a: Planet, b: Planet, sqrt: real -> real) returns (coincident: bool, burst: Option<Burst>)
      requires a != b && IsSqrt(sqrt)
      modifies a`acc, a`pos, a`vel, b`acc, b`pos, b`vel
      ensures PairOutcome(a.State(), b.State(), burst) == Interaction(old(a.State()), old(b.State()), sqrt)
      ensures coincident <==> NormSq(Sub(old(b.pos), old(a.pos))) == 0.0
    {
      coincident := NormSq(Sub(b.pos, a.pos)) == 0.0;
      if !coincident {
        var _ := a.Gravitate(b);
      }
      burst := a.Collide(b, sqrt);
    }

    /**
     * One new Collision per reported burst, in order, appended after the
     * bursts already there (the push in collideEdges and collide); the
     * planets are left alone.
     */
    method SpawnAll(bursts: seq<Burst>, rng: Entropy.Rng)
      requires Valid()
      modifies this`collisions, rng
      ensures Valid()
      ensures |collisions| >= |old(collisions)| && collisions[..|old(collisions)|] == old(collisions)
      ensures forall k :: |old(collisions)| <= k < |collisions| ==> fresh(collisions[k])
      ensures Matches(collisions[|old(collisions)|..], bursts)
      ensures States(planets) == old(States(planets)) && Visibles(planets) == old(Visibles(planets)) && Tangibles(planets) == old(Tangibles(planets))
    {
      var i := 0;
      while i < |bursts|
        invariant 0 <= i <= |bursts|
        invariant Valid()
        invariant |collisions| >= |old(collisions)| && collisions[..|old(collisions)|] == old(collisions)
        invariant forall k :: |old(collisions)| <= k < |collisions| ==> fresh(collisions[k])
        invariant Matches(collisions[|old(collisions)|..], bursts[..i])
      {
        ghost var before := collisions;
        Spawn(Some(bursts[i]), rng);
        MatchesGrow(before, collisions, |old(collisions)|, bursts[..i], [bursts[i]]);
        assert bursts[..i + 1] == bursts[..i] + [bursts[i]];
        i := i + 1;
      }
      assert bursts[..i] == bursts;
    }

    /** draw with the cooldown tick (rendering left out). */
    method TickCooldown(deltaTime: real)
      modifies this`mouseCooldown
      ensures mouseCooldown == Tick(old(mouseCooldown), deltaTime)
    {
      if mouseCooldown > 0.0 {
        mouseCooldown := mouseCooldown - deltaTime;
      }
    }

    /**
     * The physics part of draw: prune the bursts, run the planet loop with
     * dt = deltaTime / 1000 * TIMESCALE (see Frame), count the cooldown
     * down. One new Collision per burst of the frame is appended after the
     * kept ones.
     */
    method Draw(deltaTime: real, sqrt: real -> real, rng: Entropy.Rng) returns (coincident: bool)
      requires Valid() && IsSqrt(sqrt)
      modifies this`collisions, this`mouseCooldown, collisions, planets`pos, planets`vel, planets`acc, planets`lastPos, rng
      ensures Valid()
      ensures mouseCooldown == Tick(old(mouseCooldown), deltaTime)
      ensures Lists(old(collisions)) == UpdateEach(old(Lists(collisions)), deltaTime)
      ensures Tangibles(planets) == old(Tangibles(planets))
      ensures var kept := Kept(old(collisions), UpdateEach(old(Lists(collisions)), deltaTime));
        var l := Loop(old(Tangibles(planets)), Visibles(planets), width, height, deltaTime / 1000.0 * TIMESCALE, sqrt);
        var r := Frame(old(States(planets)), l);
        && |collisions| >= |kept| && collisions[..|kept|] == kept
        && (forall k :: |kept| <= k < |collisions| ==> fresh(collisions[k]))
        && States(planets) == r.bodies && Matches(collisions[|kept|..], r.bursts)
    {
      var bursts;
      coincident, bursts := Simulate(deltaTime, sqrt);
      SpawnAll(bursts, rng);
      TickCooldown(deltaTime);
    }

    /**
     * The pruning loop, then the planet loop: the bursts left over are
     * Kept of the updated ones, and the planets and the bursts they report
     * are Frame of their states before.
     */
    method Simulate(deltaTime: real, sqrt: real -> real) returns (coincident: bool, bursts: seq<Burst>)
      requires Valid() && IsSqrt(sqrt)
      modifies this`collisions, collisions, planets`pos, planets`vel, planets`acc, planets`lastPos
      ensures Valid()
      ensures Lists(old(collisions)) == UpdateEach(old(Lists(collisions)), deltaTime)
      ensures collisions == Kept(old(collisions), UpdateEach(old(Lists(collisions)), deltaTime))
      ensures Tangibles(planets) == old(Tangibles(planets))
      ensures var r := Frame(old(States(planets)), Loop(old(Tangibles(planets)), Visibles(planets), width, height, deltaTime / 1000.0 * TIMESCALE, sqrt));
        States(planets) == r.bodies && bursts == r.bursts
    {
      ghost var l := Loop(Tangibles(planets), Visibles(planets), width, height, deltaTime / 1000.0 * TIMESCALE, sqrt);
      ghost var states := States(planets);
      PruneEffects(deltaTime);
      ghost var lists := Lists(old(collisions));
      assert States(planets) == states && Runs(l);
      coincident, bursts := StepPlanets(deltaTime / 1000.0 * TIMESCALE, sqrt, l);
      assert Lists(old(collisions)) == lists;
      assert Tangibles(planets) == l.tangible && Visibles(planets) == l.visible;
    }

    /**
     * l describes this sketch's planet loop: the planets' flags, this
     * window, and a square root.
     */
    ghost predicate Runs(l: Loop)
      reads this, planets
    {
      && Fits(l, |planets|) && l.width == width && l.height == height
      && forall k :: 0 <= k < |planets| ==> l.tangible[k] == planets[k].tangible && l.visible[k] == planets[k].visible
    }
  }

  /**
   * The new bursts cs of a frame, made from the bursts the frame reported:
   * one each, in order, Launched from it.
   */
  ghost predicate Matches(cs: seq<Collision>, bursts: seq<Burst>)
    reads cs
  {
    |cs| == |bursts| && forall k :: 0 <= k < |cs| ==> Launched(cs[k], bursts[k])
  }

  /**
   * A Collision as new Collision(origin, count, speed) leaves it: at the
   * burst's origin, with count particles, each at the origin, alive with
   * the full lifespan.
   */
  ghost predicate Launched(c: Collision, b: Burst)
    reads c
  {
    && c.origin == b.origin && |c.particles| == b.count
    && forall p :: p in c.particles ==> p.pos == p.prevPos == b.origin && p.lifespan == p.initialLifespan == PARTICLE_LIFESPAN
  }

  /** Appending the bursts of one more step keeps the new bursts matched. */
  lemma MatchesGrow(cs: seq<Collision>, cs': seq<Collision>, c0: nat, bursts: seq<Burst>, more: seq<Burst>)
    requires c0 <= |cs| <= |cs'| && cs'[..|cs|] == cs
    requires Matches(cs[c0..], bursts) && Matches(cs'[|cs|..], more)
    ensures Matches(cs'[c0..], bursts + more)
  {
    assert cs'[c0..] == cs[c0..] + cs'[|cs|..];
  }

  /** The tangible flags of a list of planets. */
  ghost function Tangibles(ps: seq<Planet>): (r: seq<bool>)
    reads ps
    ensures |r| == |ps| && forall k :: 0 <= k < |ps| ==> r[k] == ps[k].tangible
  {
    seq(|ps|, k requires 0 <= k < |ps| reads ps => ps[k].tangible)
  }

  /** The visible flags of a list of planets. */
  ghost function Visibles(ps: seq<Planet>): (r: seq<bool>)
    reads ps
    ensures |r| == |ps| && forall k :: 0 <= k < |ps| ==> r[k] == ps[k].visible
  {
    seq(|ps|, k requires 0 <= k < |ps| reads ps => ps[k].visible)
  }

  /** The particle lists of a list of bursts. */
  ghost function Lists(cs: seq<Collision>): (r: seq<seq<Particle>>)
    reads cs
    ensures |r| == |cs| && forall k :: 0 <= k < |cs| ==> r[k] == cs[k].particles
  {
    seq(|cs|, k requires 0 <= k < |cs| reads cs => cs[k].particles)
  }

  /** The step of the pruning loop on the particle lists: list i takes its updated value. */
  lemma Advance<T>(ps0: seq<T>, after: seq<T>, i: nat)
    requires |ps0| == |after| && i < |ps0|
    ensures (ps0[..i + 1] + after[i + 1..])[i := after[i]] == ps0[..i] + after[i..]
  {
    assert after[i..] == [after[i]] + after[i + 1..];
  }

  /**
   * The physical states of a list of planets. Each sketch has its own
   * Planet class and Body type, so each module defines its own States.
   */
  ghost function States(ps: seq<Planet>): (r: seq<Body>)
    reads ps
    ensures |r| == |ps| && forall k :: 0 <= k < |ps| ==> r[k] == ps[k].State()
  {
    seq(|ps|, k requires 0 <= k < |ps| reads ps => ps[k].State())
  }
}
