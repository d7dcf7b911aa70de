/** Real-valued helpers shared by the controller and the network: the
    `std::min` / `std::max` pair and the clamp the source builds from them. */
module Numerics {

  /** `std::min(a, b)`: `b` only when it is strictly smaller. */
  function Min(a: real, b: real): real
  {
    if b < a then b else a
  }

  /** `std::max(a, b)`: `b` only when `a` is strictly smaller. */
  function Max(a: real, b: real): real
  {
    if a < b then b else a
  }

  /** `std::max(lo, std::min(hi, x))`, the clamp written out at every use
      site of the source. The result never falls below `lo`; with a
      non-empty band it lies in the band, is `x` itself when `x` already
      does, and is the nearer bound otherwise. */
  function Clamp(x: real, lo: real, hi: real): (r: real)
    ensures lo <= r
    ensures lo <= hi ==> r <= hi
    ensures lo <= x <= hi ==> r == x
    ensures x <= lo ==> r == lo
    ensures lo <= hi <= x ==> r == hi
  {
    Max(lo, Min(hi, x))
  }

  /** Clamping into a non-empty band preserves order. */
  lemma ClampMonotone(x: real, y: real, lo: real, hi: real)
    requires lo <= hi && x <= y
    ensures Clamp(x, lo, hi) <= Clamp(y, lo, hi)
  {
  }

  /** The product of two non-negative reals is non-negative. */
  lemma ProductNonNegative(x: real, y: real)
    requires 0.0 <= x && 0.0 <= y
    ensures 0.0 <= x * y
  {
  }
}
