/** Plane geometry shared by the track routines: points of the ground plane,
    squared Euclidean distance, and distances extended with +infinity (the
    scans start from JavaScript's `Infinity`). */
module Geometry {

  /** A point of the ground plane, as the pair (x, z) of a boundary entry. */
  type Point = (real, real)

  /** Squared Euclidean distance. The game compares `Math.sqrt` of this value;
      since the square root is strictly increasing on non-negative reals, every
      comparison the game makes is decided the same way on squares. */
  function Dist2(a: Point, b: Point): (d: real)
    ensures d >= 0.0
  {
    (a.0 - b.0) * (a.0 - b.0) + (a.1 - b.1) * (a.1 - b.1)
  }

  function Min(a: real, b: real): real { if a <= b then a else b }

  function Max(a: real, b: real): real { if a <= b then b else a }

  /** A real number or +infinity. */
  datatype ExtReal = Finite(v: real) | PosInf

  /** `d < e`, with every real below infinity. */
  predicate Below(d: real, e: ExtReal)
  {
    e.PosInf? || d < e.v
  }

  /** `e <= t`; infinity is at most no real. */
  predicate AtMost(e: ExtReal, t: real)
  {
    e.Finite? && e.v <= t
  }

  /** `e > t`; infinity exceeds every real. */
  predicate Exceeds(e: ExtReal, t: real)
  {
    e.PosInf? || e.v > t
  }

  /** The order of the extended reals. */
  predicate ExtLe(a: ExtReal, b: ExtReal)
  {
    b.PosInf? || (a.Finite? && a.v <= b.v)
  }
}
