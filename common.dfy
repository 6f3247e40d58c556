/**
 * Helpers shared by the planet sketches: frame timing (the total of a
 * series of deltaTimes and the mouse cooldown, which 06-planets.js and
 * 07-planets2.js count down in the same way), the integral mass both draw
 * from random(1, 9), and lists without repetitions.
 */
module Common {

  /** The total time of a series of updates. */
  function Total(dts: seq<real>): real
  {
    if dts == [] then 0.0 else dts[0] + Total(dts[1..])
  }

  /**
   * Math.floor of a draw from random(1, 9): an integral mass from 1 to 8.
   */
  function FloorMass(r: real): (m: real)
    requires 1.0 <= r < 9.0
    ensures 1.0 <= m <= 8.0 && m == m.Floor as real
    ensures m <= r < m + 1.0
  {
    r.Floor as real
  }

  /**
   * mouseCooldown after one frame: it counts down only while positive.
   * The body is the definition; the ensures spell out its two cases for
   * callers, and CooldownExpires and CooldownStaysExpired state what the
   * countdown achieves.
   */
  function Tick(cooldown: real, dt: real): (c: real)
    ensures cooldown <= 0.0 ==> c == cooldown
    ensures 0.0 < cooldown ==> c == cooldown - dt
  {
    if cooldown > 0.0 then cooldown - dt else cooldown
  }

  /** mouseCooldown after a series of frames. */
  function Ticks(cooldown: real, dts: seq<real>): real
    decreases |dts|
  {
    if dts == [] then cooldown else Ticks(Tick(cooldown, dts[0]), dts[1..])
  }

  /**
   * The cooldown expires: once the frames' deltaTimes add up to at least
   * its value, the mouse planet can be pressed into being again.
   */
  lemma {:induction false} CooldownExpires(cooldown: real, dts: seq<real>)
    requires forall k :: 0 <= k < |dts| ==> 0.0 <= dts[k]
    requires cooldown <= Total(dts)
    ensures Ticks(cooldown, dts) <= 0.0
    decreases |dts|
  {
    if dts != [] {
      assert Total(dts) == dts[0] + Total(dts[1..]);
      if cooldown > 0.0 {
        CooldownExpires(cooldown - dts[0], dts[1..]);
      } else {
        CooldownStaysExpired(cooldown, dts[1..]);
      }
    }
  }

  /** A cooldown that has run out stays where it is. */
  lemma {:induction false} CooldownStaysExpired(cooldown: real, dts: seq<real>)
    requires cooldown <= 0.0
    ensures Ticks(cooldown, dts) == cooldown
    decreases |dts|
  {
    if dts != [] { CooldownStaysExpired(cooldown, dts[1..]); }
  }

  /** No element listed twice. */
  predicate Distinct<T(==)>(xs: seq<T>)
  {
    forall k, l :: 0 <= k < l < |xs| ==> xs[k] != xs[l]
  }
}
