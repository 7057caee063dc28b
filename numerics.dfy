/**
 * The engine's scalar helpers that the simulation rules use (integer clamp,
 * rounding to an integer, ceiling, linear interpolation and the half-open
 * random range), written out over `int` and `real`.
 */
module Numerics {

  /** `v` lies between `from` and `to`, whichever of the two is larger. */
  predicate Between(v: real, from: real, to: real)
  {
    (from <= v <= to) || (to <= v <= from)
  }

  /** The engine's integer maximum. */
  function Max(a: int, b: int): int
  {
    if a > b then a else b
  }

  /** The smaller of two integers. */
  function Min(a: int, b: int): int
  {
    if a < b then a else b
  }

  /** The engine's float minimum. */
  function MinReal(a: real, b: real): real
  {
    if a < b then a else b
  }

  /**
   * The engine's integer clamp: a value below `lo` is raised to `lo`,
   * otherwise a value above `hi` is cut to `hi`.
   */
  function Clamp(v: int, lo: int, hi: int): (r: int)
    ensures lo <= hi ==> lo <= r <= hi
    ensures lo <= v <= hi ==> r == v
    ensures v < lo ==> r == lo
    ensures lo <= v && hi < v ==> r == hi
  {
    if v < lo then lo else if v > hi then hi else v
  }

  function Clamp01(t: real): real
  {
    if t < 0.0 then 0.0 else if t > 1.0 then 1.0 else t
  }

  /** The engine's float interpolation, whose fraction is clamped to [0, 1]. */
  function Lerp(a: real, b: real, t: real): (r: real)
    ensures Between(r, a, b)
    ensures t <= 0.0 ==> r == a
    ensures t >= 1.0 ==> r == b
  {
    LerpBetween(a, b, Clamp01(t));
    a + (b - a) * Clamp01(t)
  }

  lemma LerpBetween(a: real, b: real, u: real)
    requires 0.0 <= u <= 1.0
    ensures Between(a + (b - a) * u, a, b)
  {
    if a <= b {
      LerpUp(a, b, u);
    } else {
      LerpDown(a, b, u);
    }
  }

  /** Interpolating upward stays within [a, b]. */
  lemma LerpUp(a: real, b: real, u: real)
    requires 0.0 <= u <= 1.0 && a <= b
    ensures a <= a + (b - a) * u <= b
  {
    assert (b - a) * u <= (b - a) * 1.0;
  }

  /** Interpolating downward stays within [b, a]. */
  lemma LerpDown(a: real, b: real, u: real)
    requires 0.0 <= u <= 1.0 && b < a
    ensures b <= a + (b - a) * u <= a
  {
    assert (b - a) * u >= (b - a) * 1.0;
  }

  /**
   * Rounding to the nearest integer as the engine does it (the .NET default):
   * a value exactly halfway between two integers goes to the even one.
   */
  function RoundToInt(r: real): (k: int)
    ensures k as real - 0.5 <= r <= k as real + 0.5
    ensures r == r.Floor as real ==> k == r.Floor
    ensures r - r.Floor as real == 0.5 ==> k % 2 == 0
  {
    var f := r.Floor;
    var frac := r - f as real;
    if frac < 0.5 then f
    else if frac > 0.5 then f + 1
    else if f % 2 == 0 then f
    else f + 1
  }

  /** The smallest integer not below `r`. */
  function CeilToInt(r: real): (k: int)
    ensures r <= k as real < r + 1.0
  {
    -((-r).Floor)
  }

  /**
   * `v` is a possible result of the engine's integer `Random.Range(lo, hi)`:
   * a value of the half-open range [lo, hi), or `lo` itself when the range
   * is empty.
   */
  predicate InRandomRange(v: int, lo: int, hi: int)
  {
    if hi <= lo then v == lo else lo <= v < hi
  }
}
