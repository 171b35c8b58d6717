/**
 * Angle arithmetic on the single track axis.  The game keeps every angle in
 * radians in [0, 2π); `WrapRad`, `DeltaAngleRad` and `NormalizeInterval` are
 * private helpers that PlayerController, ObstacleArc, ObstacleSpawner and
 * GameManager each carry an identical copy of.  They are defined once here.
 */
module Angles {
  import opened Mathf

  /** `Mathf.PI`, the single-precision value of π. */
  const Pi: real := 3.14159274
  const TwoPi: real := 2.0 * Pi
  /** `Mathf.Deg2Rad` and `Mathf.Rad2Deg`, exact inverses over the reals. */
  const Deg2Rad: real := TwoPi / 360.0
  const Rad2Deg: real := 360.0 / TwoPi

  /** Integer part of x, rounding toward zero (what C#'s `%` uses). */
  function Truncate(x: real): (r: int)
    ensures x >= 0.0 ==> r as real <= x < r as real + 1.0
    ensures x < 0.0 ==> r as real - 1.0 < x <= r as real
  {
    if x >= 0.0 then x.Floor else -((-x).Floor)
  }

  /** C#'s `a % twoPi` on floats: the remainder carries the sign of `a`. */
  function FModTwoPi(a: real): (r: real)
    ensures a >= 0.0 ==> 0.0 <= r < TwoPi
    ensures a < 0.0 ==> -TwoPi < r <= 0.0
    ensures r == a - TwoPi * Truncate(a / TwoPi) as real
  {
    a - TwoPi * Truncate(a / TwoPi) as real
  }

  /** The index of the turn that contains `a`: a = TwoPi * Turn(a) + WrapRad(a). */
  function Turn(a: real): int
  {
    (a / TwoPi).Floor
  }

  /**
   * `WrapRad`: truncated remainder, then one turn added when it is negative.
   * Over the reals this is the floored remainder: the result lies in [0, 2π)
   * and differs from `a` by a whole number of turns.
   */
  function WrapRad(a: real): (r: real)
    ensures 0.0 <= r < TwoPi
    ensures r == a - TwoPi * Turn(a) as real
  {
    var f := FModTwoPi(a);
    if f < 0.0 then f + TwoPi else f
  }

  /** WrapRad is idempotent. */
  lemma WrapRadIdempotent(a: real)
    ensures WrapRad(WrapRad(a)) == WrapRad(a)
  {
    WrapRadFixesCircle(WrapRad(a));
  }

  /** WrapRad leaves an angle alone exactly when it already lies in [0, 2π). */
  lemma WrapRadFixesCircle(a: real)
    ensures WrapRad(a) == a <==> 0.0 <= a < TwoPi
  {
    if 0.0 <= a < TwoPi {
      assert Turn(a) == 0;
    }
  }

  /** Adding whole turns does not change the wrapped angle. */
  lemma WrapRadPeriodic(a: real, k: int)
    ensures WrapRad(a + TwoPi * k as real) == WrapRad(a)
  {
    var b := a + TwoPi * k as real;
    assert b / TwoPi == a / TwoPi + k as real;
    assert Turn(b) == Turn(a) + k;
  }

  /** `Mathf.Repeat(t, 360)`: t folded into [0, 360). */
  function Repeat360(t: real): (r: real)
    ensures 0.0 <= r < 360.0
    ensures r == t - 360.0 * (t / 360.0).Floor as real
  {
    Clamp(t - (t / 360.0).Floor as real * 360.0, 0.0, 360.0)
  }

  /** How many whole turns of 360 degrees `Mathf.DeltaAngle(current, target)` removes. */
  function DegWinding(current: real, target: real): int
  {
    var k := ((target - current) / 360.0).Floor;
    if Repeat360(target - current) > 180.0 then k + 1 else k
  }

  /**
   * `Mathf.DeltaAngle(current, target)` in degrees: the signed turn, in
   * (-180, 180], that carries `current` onto `target`.
   */
  function DeltaAngleDeg(current: real, target: real): (r: real)
    ensures -180.0 < r <= 180.0
    ensures r == target - current - 360.0 * DegWinding(current, target) as real
  {
    var num := Repeat360(target - current);
    if num > 180.0 then num - 360.0 else num
  }

  /**
   * `DeltaAngleRad(a, b)`: `Mathf.DeltaAngle` applied to the angles in degrees,
   * converted back to radians.  The result is the shortest signed turn, in
   * (-π, π], that carries `a` onto `b` on the circle.
   */
  function DeltaAngleRad(a: real, b: real): (r: real)
    ensures -Pi < r <= Pi
    ensures WrapRad(a + r) == WrapRad(b)
  {
    var d := DeltaAngleDeg(a * Rad2Deg, b * Rad2Deg);
    DeltaToRadians(a, b, d, DegWinding(a * Rad2Deg, b * Rad2Deg));
    d * Deg2Rad
  }

  lemma DeltaToRadians(a: real, b: real, d: real, k: int)
    requires -180.0 < d <= 180.0
    requires d == b * Rad2Deg - a * Rad2Deg - 360.0 * k as real
    ensures -Pi < d * Deg2Rad <= Pi
    ensures WrapRad(a + d * Deg2Rad) == WrapRad(b)
  {
    assert d * Deg2Rad == b - a - TwoPi * k as real by {
      DegreesRoundTrip(a, b, k as real);
    }
    assert a + d * Deg2Rad == b + TwoPi * (-k) as real;
    WrapRadPeriodic(b, -k);
    ScaleToRadians(d);
  }

  lemma ScaleToRadians(d: real)
    requires -180.0 < d <= 180.0
    ensures -Pi < d * Deg2Rad <= Pi
  {
    assert Deg2Rad > 0.0;
    assert (d + 180.0) * Deg2Rad > 0.0;
    assert (180.0 - d) * Deg2Rad >= 0.0;
    assert 180.0 * Deg2Rad == Pi;
  }

  /** Equal wrapped angles stay equal when both are shifted by the same amount. */
  lemma WrapRadShift(x: real, y: real, c: real)
    requires WrapRad(x) == WrapRad(y)
    ensures WrapRad(x + c) == WrapRad(y + c)
  {
    var m := Turn(x) - Turn(y);
    assert x + c == (y + c) + TwoPi * m as real;
    WrapRadPeriodic(y + c, m);
  }

  /**
   * DeltaAngleRad(a, b) is the only turn in (-π, π] that carries `a` onto `b`.
   */
  lemma DeltaAngleRadUnique(a: real, b: real, r: real)
    requires -Pi < r <= Pi && WrapRad(a + r) == WrapRad(b)
    ensures DeltaAngleRad(a, b) == r
  {
    var d := DeltaAngleRad(a, b);
    var m := Turn(a + d) - Turn(a + r);
    WrapRadDiff(a + d, a + r);
    assert (a + d) - (a + r) == d - r;
    NoWholeTurnBelowOne(m, d - r);
  }

  /** Two angles with the same wrapped value differ by whole turns. */
  lemma WrapRadDiff(x: real, y: real)
    requires WrapRad(x) == WrapRad(y)
    ensures x - y == TwoPi * (Turn(x) - Turn(y)) as real
  {
  }

  /** A whole number of turns strictly between -2π and 2π is no turn at all. */
  lemma NoWholeTurnBelowOne(m: int, x: real)
    requires x == TwoPi * m as real && -TwoPi < x < TwoPi
    ensures m == 0 && x == 0.0
  {
    if m >= 1 {
      MulMonotone(TwoPi, 1.0, m as real);
    } else if m <= -1 {
      MulMonotone(TwoPi, 1.0, -m as real);
    }
  }

  /** The point reached from `c` by turning through `o` radians. */
  function Rotate(c: real, o: real): (r: real)
    ensures 0.0 <= r < TwoPi
  {
    WrapRad(c + o)
  }

  /**
   * An angle is within `w` (less than half a turn) of a centre, as DeltaAngleRad
   * measures it, exactly when some offset of at most `w` either way carries the
   * centre onto it.
   */
  lemma WithinArc(p: real, c: real, w: real)
    requires 0.0 <= w < Pi
    ensures Abs(DeltaAngleRad(p, c)) <= w <==>
            exists o :: -w <= o <= w && Rotate(c, o) == WrapRad(p)
  {
    var d := DeltaAngleRad(p, c);
    if Abs(d) <= w {
      WrapRadShift(p + d, c, -d);
      assert p + d + -d == p;
      assert Rotate(c, -d) == WrapRad(p);
    }
    if exists o :: -w <= o <= w && Rotate(c, o) == WrapRad(p) {
      var o :| -w <= o <= w && Rotate(c, o) == WrapRad(p);
      WrapRadShift(c + o, p, -o);
      assert c + o + -o == c;
      DeltaAngleRadUnique(p, c, -o);
    }
  }

  /** Converting a difference to degrees and back is exact over the reals. */
  lemma DegreesRoundTrip(a: real, b: real, k: real)
    ensures (b * Rad2Deg - a * Rad2Deg - 360.0 * k) * Deg2Rad == b - a - TwoPi * k
  {
    assert Rad2Deg * Deg2Rad == 1.0;
    assert 360.0 * Deg2Rad == TwoPi;
    calc {
      (b * Rad2Deg - a * Rad2Deg - 360.0 * k) * Deg2Rad;
      b * (Rad2Deg * Deg2Rad) - a * (Rad2Deg * Deg2Rad) - (360.0 * Deg2Rad) * k;
      b - a - TwoPi * k;
    }
  }

  /**
   * `NormalizeInterval(from, to)`: both ends wrapped into [0, 2π), and
   * `wrapped` set when the wrapped interval crosses 0 (its end is below its start).
   */
  function NormalizeInterval(from: real, to: real): (r: (real, real, bool))
    ensures 0.0 <= r.0 < TwoPi && 0.0 <= r.1 < TwoPi
    ensures WrapRad(r.0) == WrapRad(from) && WrapRad(r.1) == WrapRad(to)
    ensures r.2 <==> r.1 < r.0
  {
    WrapRadIdempotent(from);
    WrapRadIdempotent(to);
    var f := WrapRad(from);
    var t := WrapRad(to);
    (f, t, t < f)
  }
}
