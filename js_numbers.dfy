/**
 * JavaScript's integer remainder and the `((a % b) + b) % b` idiom built on
 * it, for the positive moduli the sketches use (a list's length, a ring
 * buffer's size). JavaScript's `%` truncates toward zero, so its result
 * takes the sign of the dividend; Dafny's `%` is Euclidean and never
 * negative. The two are written apart here and then related.
 */
module JsNumbers {

  /** The quotient truncated toward zero, Math.trunc(a / b). */
  function Quot(a: int, b: int): int
    requires 0 < b
  {
    if 0 <= a then a / b else -((-a) / b)
  }

  /**
   * `a % b` in JavaScript. It lies strictly between -b and b, is never
   * negative for a non-negative dividend and never positive for a negative
   * one, and equals Dafny's `%` exactly when the dividend is non-negative or
   * divisible by b.
   */
  function Rem(a: int, b: int): (r: int)
    requires 0 < b
    ensures -b < r < b
    ensures 0 <= a ==> r == a % b
    ensures a < 0 ==> r == if a % b == 0 then 0 else a % b - b
  {
    if 0 <= a then a % b
    else
      NegatedRemainder(a, b);
      -((-a) % b)
  }

  /** ECMAScript's definition of `%`: what truncated division leaves over, a == b * trunc(a / b) + a % b. */
  lemma RemIsTruncatedDivision(a: int, b: int)
    requires 0 < b
    ensures a == b * Quot(a, b) + Rem(a, b)
  {
    if a < 0 {
      var q := (-a) / b;
      assert -a == b * q + (-a) % b;
      assert b * Quot(a, b) == -(b * q);
    }
  }

  /** main.js's mod(a, b): `((a % b) + b) % b` with JavaScript's `%`. */
  function Mod(a: int, b: int): (r: int)
    requires 0 < b
    ensures 0 <= r < b
  {
    Rem(Rem(a, b) + b, b)
  }

  /**
   * mod agrees with Dafny's Euclidean `%`: it is the remainder of a modulo b
   * in [0, b), and it leaves an index already in [0, b) as it is.
   */
  lemma ModAgrees(a: int, b: int)
    requires 0 < b
    ensures Mod(a, b) == a % b
    ensures 0 <= a < b ==> Mod(a, b) == a
  {
    var r := a % b;
    if 0 <= a {
      DivModUnique(r + b, b, 1, r);
    } else if r == 0 {
      DivModUnique(b, b, 1, 0);
    } else {
      DivModUnique(r, b, 0, r);
    }
    if 0 <= a < b {
      DivModUnique(a, b, 0, a);
    }
  }

  /** Negating the dividend turns a non-zero remainder r into b - r. */
  lemma NegatedRemainder(a: int, b: int)
    requires 0 < b
    ensures (-a) % b == if a % b == 0 then 0 else b - a % b
  {
    var q, r := a / b, a % b;
    assert a == b * q + r;
    if r == 0 {
      assert -a == b * (-q) + 0;
      DivModUnique(-a, b, -q, 0);
    } else {
      assert -a == b * (-q - 1) + (b - r);
      DivModUnique(-a, b, -q - 1, b - r);
    }
  }

  /** A quotient and a remainder in [0, b) that rebuild a are Dafny's. */
  lemma DivModUnique(a: int, b: int, q: int, r: int)
    requires 0 < b && 0 <= r < b && a == b * q + r
    ensures a % b == r && a / b == q
  {
    var q', r' := a / b, a % b;
    assert a == b * q' + r';
    var d := q - q';
    assert b * q - b * q' == b * d;
    if d >= 1 {
      MulAtLeast(b, d);
    } else if d <= -1 {
      MulAtLeast(b, -d);
    }
  }

  lemma MulAtLeast(b: int, d: int)
    requires 0 < b && 1 <= d
    ensures b <= b * d
  {
    if d > 1 {
      MulAtLeast(b, d - 1);
      assert b * d == b * (d - 1) + b;
    }
  }
}
