/**
 * The base swell of water.py's `update`: the sum of two sine waves, sampled
 * at every surface point. It lives apart from the height field so that its
 * real division stays out of the proofs about the force loop.
 */
module Swell {
  import opened Screen
  import opened WeatherPresets

  /** The horizontal position of point `i`, in pixels (`i * POINT_SPACING`). */
  function PointX(i: int): real
  {
    (i * PointSpacing) as real
  }

  /** The swell target of point `i`: the sum of the two sine components at the phases `ph1` and `ph2`. */
  function Target(pr: Weather, ph1: real, ph2: real, i: int, sin: real -> real): real
    requires pr.wave1 != 0.0 && pr.wave2 != 0.0
  {
    pr.amp1 * sin(PointX(i) / pr.wave1 + ph1) + pr.amp2 * sin(PointX(i) / pr.wave2 + ph2)
  }

  /** The list `targets`, one per point. */
  function Targets(pr: Weather, ph1: real, ph2: real, n: nat, sin: real -> real): (t: seq<real>)
    requires pr.wave1 != 0.0 && pr.wave2 != 0.0
    ensures |t| == n
    ensures forall i :: 0 <= i < n ==> t[i] == Target(pr, ph1, ph2, i, sin)
  {
    seq(n, i => Target(pr, ph1, ph2, i, sin))
  }
}
