/**
 * World-space points and the distance comparisons the game makes. The game
 * compares Euclidean distances (a square root) with a range; since the square
 * root is increasing on non-negative numbers, the model compares the squared
 * distance with the squared range instead, which decides the same way.
 */
module Geometry {
  import opened Numerics

  datatype Vec3 = Vec3(x: real, y: real, z: real)

  /** Squared three-dimensional distance. */
  function SqDist(a: Vec3, b: Vec3): (d: real)
    ensures d >= 0.0
  {
    (a.x - b.x) * (a.x - b.x) + (a.y - b.y) * (a.y - b.y) + (a.z - b.z) * (a.z - b.z)
  }

  /** Squared distance in the horizontal (x, z) plane, ignoring height. */
  function HorizontalSqDist(a: Vec3, b: Vec3): (d: real)
    ensures d >= 0.0
  {
    (a.x - b.x) * (a.x - b.x) + (a.z - b.z) * (a.z - b.z)
  }

  /** A distance whose square is `d2` is at most `r`. */
  predicate WithinDistance(d2: real, r: real)
  {
    0.0 <= r && d2 <= r * r
  }

  /** A distance whose square is `d2` is strictly less than `r`. */
  predicate CloserThan(d2: real, r: real)
  {
    0.0 < r && d2 < r * r
  }

  /** The engine's point interpolation, fraction clamped to [0, 1]. */
  function LerpVec(a: Vec3, b: Vec3, t: real): Vec3
  {
    Vec3(Lerp(a.x, b.x, t), Lerp(a.y, b.y, t), Lerp(a.z, b.z, t))
  }
}
