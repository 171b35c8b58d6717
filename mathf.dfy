/**
 * The few Unity `Mathf` helpers that the game's simulation relies on, over
 * real numbers (IEEE rounding is not modelled).  Each one follows the engine's
 * own definition: `Clamp` tests the lower bound first, `Lerp` clamps its
 * parameter, `RoundToInt` rounds halves to the even neighbour.
 */
module Mathf {

  datatype Option<T> = None | Some(value: T)

  function Max(a: real, b: real): (r: real)
    ensures r >= a && r >= b && (r == a || r == b)
  {
    if a > b then a else b
  }

  function Min(a: real, b: real): (r: real)
    ensures r <= a && r <= b && (r == a || r == b)
  {
    if a < b then a else b
  }

  function MaxInt(a: int, b: int): (r: int)
    ensures r >= a && r >= b && (r == a || r == b)
  {
    if a > b then a else b
  }

  function MinInt(a: int, b: int): (r: int)
    ensures r <= a && r <= b && (r == a || r == b)
  {
    if a < b then a else b
  }

  function Abs(x: real): (r: real)
    ensures r >= 0.0 && (r == x || r == -x)
  {
    if x < 0.0 then -x else x
  }

  /** `Mathf.Clamp01`. */
  function Clamp01(v: real): (r: real)
    ensures 0.0 <= r <= 1.0
    ensures 0.0 <= v <= 1.0 ==> r == v
    ensures v <= 0.0 ==> r == 0.0
    ensures v >= 1.0 ==> r == 1.0
  {
    if v < 0.0 then 0.0 else if v > 1.0 then 1.0 else v
  }

  /** `Mathf.Clamp(float, float, float)`: the lower bound wins when the bounds cross. */
  function Clamp(v: real, lo: real, hi: real): (r: real)
    ensures lo <= hi ==> lo <= r <= hi
    ensures lo <= v <= hi ==> r == v
  {
    if v < lo then lo else if v > hi then hi else v
  }

  /** `Mathf.Clamp(int, int, int)`. */
  function ClampInt(v: int, lo: int, hi: int): (r: int)
    ensures lo <= hi ==> lo <= r <= hi
    ensures lo <= v <= hi ==> r == v
  {
    if v < lo then lo else if v > hi then hi else v
  }

  /** `Mathf.Lerp`: the parameter is clamped to [0, 1] first. */
  function Lerp(a: real, b: real, t: real): (r: real)
    ensures Min(a, b) <= r <= Max(a, b)
    ensures t <= 0.0 ==> r == a
    ensures t >= 1.0 ==> r == b
  {
    var s := Clamp01(t);
    LerpBetween(a, b, s);
    a + (b - a) * s
  }

  lemma LerpBetween(a: real, b: real, s: real)
    requires 0.0 <= s <= 1.0
    ensures Min(a, b) <= a + (b - a) * s <= Max(a, b)
  {
    if a <= b {
      MulMonotone(b - a, s, 1.0);
    } else {
      MulMonotone(a - b, s, 1.0);
    }
  }

  /** Lerp is monotone in its parameter when a <= b. */
  lemma LerpMonotone(a: real, b: real, t1: real, t2: real)
    requires a <= b && t1 <= t2
    ensures Lerp(a, b, t1) <= Lerp(a, b, t2)
  {
    MulMonotone(b - a, Clamp01(t1), Clamp01(t2));
    assert Lerp(a, b, t1) == a + (b - a) * Clamp01(t1);
    assert Lerp(a, b, t2) == a + (b - a) * Clamp01(t2);
  }

  /** Lerp is antitone in its parameter when a >= b. */
  lemma LerpAntitone(a: real, b: real, t1: real, t2: real)
    requires b <= a && t1 <= t2
    ensures Lerp(a, b, t2) <= Lerp(a, b, t1)
  {
    MulMonotone(a - b, Clamp01(t1), Clamp01(t2));
    assert Lerp(a, b, t1) == a - (a - b) * Clamp01(t1);
    assert Lerp(a, b, t2) == a - (a - b) * Clamp01(t2);
  }

  lemma MulMonotone(c: real, x: real, y: real)
    requires c >= 0.0 && 0.0 <= x <= y
    ensures 0.0 <= c * x <= c * y
  {
  }

  /** `Mathf.RoundToInt`, which uses `Math.Round`: halves go to the even integer. */
  function RoundToInt(x: real): (r: int)
    ensures x - 0.5 <= r as real <= x + 0.5
    ensures x == x.Floor as real ==> r == x.Floor
  {
    var f := x.Floor;
    var frac := x - f as real;
    if frac < 0.5 then f
    else if frac > 0.5 then f + 1
    else if f % 2 == 0 then f else f + 1
  }

  /** RoundToInt never reverses the order of its arguments. */
  lemma {:induction false} RoundToIntMonotone(x: real, y: real)
    requires x <= y
    ensures RoundToInt(x) <= RoundToInt(y)
  {
    if x.Floor < y.Floor {
      assert RoundToInt(x) <= x.Floor + 1 <= y.Floor <= RoundToInt(y);
    } else {
      assert x.Floor == y.Floor;
      assert x - x.Floor as real <= y - y.Floor as real;
    }
  }

  /** Rounding never drops below an integer that is at most its argument. */
  lemma RoundToIntAtLeast(n: int, x: real)
    requires n as real <= x
    ensures n <= RoundToInt(x)
  {
    RoundToIntMonotone(n as real, x);
  }

  /** Rounding `n` scaled by a factor of at least 1 gives at least `n`. */
  lemma RoundScaledAtLeast(n: int, f: real)
    requires n >= 0 && 1.0 <= f
    ensures n <= RoundToInt(n as real * f)
  {
    MulMonotone(n as real, 1.0, f);
    RoundToIntAtLeast(n, n as real * f);
  }

  /** Rounding a non-negative `n` scaled by a factor is monotone in the factor. */
  lemma RoundScaledMonotone(n: int, f1: real, f2: real)
    requires n >= 0 && 0.0 <= f1 <= f2
    ensures RoundToInt(n as real * f1) <= RoundToInt(n as real * f2)
  {
    MulMonotone(n as real, f1, f2);
    RoundToIntMonotone(n as real * f1, n as real * f2);
  }
}
