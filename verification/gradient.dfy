/**
 * The one product in `lerp`: the part `t` of a colour difference `d`.
 * It has a name, and two lemmas bounding it, so that the proofs about `lerp`
 * use those bounds and otherwise reason only linearly.
 */
module Proportion {

  /** The part `t` of `d`, `(b - a) * t` in `lerp`. */
  function Part(d: real, t: real): real
  {
    d * t
  }

  /** A fraction `t` in [0, 1] of a non-negative `d` lies between 0 and `d`. */
  lemma FractionOfNonNegative(d: real, t: real)
    requires 0.0 <= t <= 1.0 && 0.0 <= d
    ensures 0.0 <= Part(d, t) <= d
  {
    assert d * (1.0 - t) >= 0.0;
  }

  /** A fraction `t` in [0, 1] of a non-positive `d` lies between `d` and 0. */
  lemma FractionOfNonPositive(d: real, t: real)
    requires 0.0 <= t <= 1.0 && d <= 0.0
    ensures d <= Part(d, t) <= 0.0
  {
    FractionOfNonNegative(-d, t);
    assert (-d) * t == -(d * t);
  }
}

/**
 * The gradient water of main2.py: a colour `lerp` with `int` truncation, a
 * phase that advances with time, and the arithmetic that gives each of the
 * 90 one-pixel strips below the water line its colour and sideways shift.
 */
module Gradient {
  import opened PyNum
  import opened Screen
  import Proportion

  /** One component of `lerp`: `int(a + (b - a) * t)`. */
  function Mix(a: int, b: int, t: real): int
  {
    Trunc(a as real + Proportion.Part((b - a) as real, t))
  }

  /** `lerp(a, b, t)`: the first three components mixed, as a 3-tuple. */
  function Lerp(a: seq<int>, b: seq<int>, t: real): (c: seq<int>)
    requires |a| >= 3 && |b| >= 3
    ensures |c| == 3
    ensures forall i :: 0 <= i < 3 ==> c[i] == Mix(a[i], b[i], t)
  {
    seq(3, i requires 0 <= i < 3 => Mix(a[i], b[i], t))
  }

  /** At t = 0 the mix is the first colour, at t = 1 the second. */
  lemma LerpEnds(a: seq<int>, b: seq<int>)
    requires |a| >= 3 && |b| >= 3
    ensures Lerp(a, b, 0.0) == a[..3]
    ensures Lerp(a, b, 1.0) == b[..3]
  {
    forall i | 0 <= i < 3
      ensures Mix(a[i], b[i], 0.0) == a[i] && Mix(a[i], b[i], 1.0) == b[i]
    {
      TruncOfInt(a[i]);
      TruncOfInt(b[i]);
    }
  }

  /** Mixing a colour with itself gives it back, for every t. */
  lemma LerpSame(a: seq<int>, t: real)
    requires |a| >= 3
    ensures Lerp(a, a, t) == a[..3]
  {
    forall i | 0 <= i < 3
      ensures Mix(a[i], a[i], t) == a[i]
    {
      TruncOfInt(a[i]);
    }
  }

  /** `p + (q - p) * t`, truncated, lies between p and q when t does between 0 and 1. */
  lemma MixBetween(p: int, q: int, t: real)
    requires 0.0 <= t <= 1.0
    ensures p <= q ==> p <= Mix(p, q, t) <= q
    ensures q <= p ==> q <= Mix(p, q, t) <= p
  {
    var d := (q - p) as real;
    var x := p as real + Proportion.Part(d, t);
    assert Mix(p, q, t) == Trunc(x);
    if p <= q {
      Proportion.FractionOfNonNegative(d, t);
      TruncWithin(x, p, q);
    } else {
      Proportion.FractionOfNonPositive(d, t);
      TruncWithin(x, q, p);
    }
  }

  /** For 0 <= t <= 1 every component of the mix stays between the two colours' components, truncation included. */
  lemma LerpBetween(a: seq<int>, b: seq<int>, t: real)
    requires |a| >= 3 && |b| >= 3
    requires 0.0 <= t <= 1.0
    ensures forall i :: 0 <= i < 3 ==>
      (a[i] <= b[i] ==> a[i] <= Lerp(a, b, t)[i] <= b[i])
      && (b[i] <= a[i] ==> b[i] <= Lerp(a, b, t)[i] <= a[i])
  {
    forall i | 0 <= i < 3
      ensures (a[i] <= b[i] ==> a[i] <= Mix(a[i], b[i], t) <= b[i])
           && (b[i] <= a[i] ==> b[i] <= Mix(a[i], b[i], t) <= a[i])
    {
      MixBetween(a[i], b[i], t);
    }
  }

  // ---------------------------------------------------------------------------
  //  Water
  // ---------------------------------------------------------------------------

  /** The phase advance per second of `Water.update` (`0.8`). */
  const WaveSpeed: real := 0.8

  /** main2.py's `Water`: a phase and three colours. */
  datatype Water = Water(phase: real, colTop: seq<int>, colBody: seq<int>, colDeep: seq<int>)

  /** `Water()`: phase zero and the three fixed blues. */
  function Init(): (w: Water)
    ensures w.phase == 0.0
    ensures |w.colTop| == 3 && |w.colBody| == 3 && |w.colDeep| == 3
  {
    Water(0.0, [64, 156, 215], [14, 110, 192], [5, 54, 148])
  }

  /** `update(dt)`: the phase moves on by `0.8 * dt` and nothing else changes. */
  function Update(w: Water, dt: real): (w': Water)
    ensures w'.phase - w.phase == WaveSpeed * dt
    ensures w'.colTop == w.colTop && w'.colBody == w.colBody && w'.colDeep == w.colDeep
  {
    w.(phase := w.phase + dt * WaveSpeed)
  }

  /** Updates compose by adding their time steps; a zero step changes nothing. */
  lemma UpdateAdditive(w: Water, a: real, b: real)
    ensures Update(Update(w, a), b) == Update(w, a + b)
    ensures Update(w, 0.0) == w
  {
  }

  /** The time elapsed over a sequence of frames. */
  function TotalTime(dts: seq<real>): real
  {
    if |dts| == 0 then 0.0 else TotalTime(dts[..|dts| - 1]) + dts[|dts| - 1]
  }

  /** The main loop's `water.update(dt)` once per frame. */
  function UpdateAll(w: Water, dts: seq<real>): Water
  {
    if |dts| == 0 then w else Update(UpdateAll(w, dts[..|dts| - 1]), dts[|dts| - 1])
  }

  lemma {:induction false} UpdateAllShift(w: Water, dts: seq<real>)
    ensures UpdateAll(w, dts) == w.(phase := w.phase + WaveSpeed * TotalTime(dts))
  {
    if |dts| > 0 {
      UpdateAllShift(w, dts[..|dts| - 1]);
    }
  }

  /** From the initial water, after any sequence of frames the phase is `0.8` times the elapsed time. */
  lemma UpdatesTrackTime(dts: seq<real>)
    ensures UpdateAll(Init(), dts).phase == WaveSpeed * TotalTime(dts)
    ensures UpdateAll(Init(), dts).colBody == Init().colBody
  {
    UpdateAllShift(Init(), dts);
  }

  // ---------------------------------------------------------------------------
  //  The strips `draw` paints
  // ---------------------------------------------------------------------------

  /** The number of strips below the water line (`HEIGHT - WATER_Y`). */
  const StripCount: int := Height - WaterY

  /** The gradient parameter of strip `y`: `y / (HEIGHT - WATER_Y)`. */
  function StripParam(y: int): real
  {
    y as real / StripCount as real
  }

  /** Every strip's parameter lies in [0, 1), and the top strip's is exactly 0. */
  lemma StripParamRange(y: int)
    requires 0 <= y < StripCount
    ensures 0.0 <= StripParam(y) < 1.0
    ensures y == 0 ==> StripParam(y) == 0.0
  {
  }

  /** The colour of strip `y`: body blue mixed toward deep blue. */
  function StripColour(w: Water, y: int): (c: seq<int>)
    requires |w.colBody| >= 3 && |w.colDeep| >= 3
    ensures |c| == 3
  {
    Lerp(w.colBody, w.colDeep, StripParam(y))
  }

  /**
   * The top strip is painted exactly in the body colour, and every strip's
   * colour lies component by component between the body and the deep colour.
   */
  lemma StripColours(w: Water, y: int)
    requires |w.colBody| == 3 && |w.colDeep| == 3
    requires 0 <= y < StripCount
    ensures StripColour(w, 0) == w.colBody
    ensures forall i :: 0 <= i < 3 ==>
      var c, lo, hi := StripColour(w, y)[i], w.colBody[i], w.colDeep[i];
      (lo <= hi ==> lo <= c <= hi) && (hi <= lo ==> hi <= c <= lo)
  {
    LerpEnds(w.colBody, w.colDeep);
    assert w.colBody[..3] == w.colBody;
    StripParamRange(y);
    LerpBetween(w.colBody, w.colDeep, StripParam(y));
  }

  /** The sideways shift of strip `y`: `int(4 * sin(y * 0.1 + phase))`. */
  function StripShift(w: Water, y: int, sin: real -> real): int
  {
    Trunc(4.0 * sin(y as real * 0.1 + w.phase))
  }

  /** Whenever the sine stays within [-1, 1], no strip is shifted by more than four pixels. */
  lemma StripShiftBounded(w: Water, y: int, sin: real -> real)
    requires -1.0 <= sin(y as real * 0.1 + w.phase) <= 1.0
    ensures -4 <= StripShift(w, y, sin) <= 4
  {
    TruncWithin(4.0 * sin(y as real * 0.1 + w.phase), -4, 4);
  }
}
