/**
 * The `Water` height field of water.py: a chain of 81 surface points across
 * the 320-pixel screen, each with a vertical displacement and a velocity, two
 * swell phases, and the active weather profile.
 *
 * `math.sin` and `math.exp` are not modelled: `Update` takes them as
 * parameters, so every statement about it holds whatever those functions
 * return.
 */
module HeightField {
  import opened Results
  import opened PyNum
  import opened Screen
  import opened WeatherPresets
  import Swell

  /** `WIDTH // POINT_SPACING + 1`. */
  const NumPoints: int := Width / PointSpacing + 1

  /** The fixed spring constants set by the constructor. */
  const Tension: real := 160.0
  const Spread: real := 50.0
  const Damping: real := 9.0

  datatype Water = Water(
    profile: Weather,
    numPts: int,
    yDisp: seq<real>,
    vel: seq<real>,
    tension: real,
    spread: real,
    damp: real,
    ph1: real,
    ph2: real)

  /** What every `Water` satisfies from construction on: 81 points, two arrays of that length, non-negative constants. */
  predicate Valid(w: Water)
  {
    && w.numPts == NumPoints
    && |w.yDisp| == w.numPts
    && |w.vel| == w.numPts
    && w.tension >= 0.0 && w.spread >= 0.0 && w.damp >= 0.0
  }

  /** `Water(profile)`: a flat, still surface at phase zero. */
  function New(profile: Weather): (w: Water)
    ensures Valid(w)
    ensures w.numPts == 81
    ensures w.profile == profile
    ensures forall i :: 0 <= i < w.numPts ==> w.yDisp[i] == 0.0 && w.vel[i] == 0.0
    ensures w.ph1 == 0.0 && w.ph2 == 0.0
    ensures w.tension == 160.0 && w.spread == 50.0 && w.damp == 9.0
  {
    Water(profile, NumPoints, seq(NumPoints, _ => 0.0), seq(NumPoints, _ => 0.0),
          Tension, Spread, Damping, 0.0, 0.0)
  }

  /** `set_profile`: swaps the weather and nothing else. */
  function SetProfile(w: Water, profile: Weather): (w': Water)
    ensures w'.profile == profile
    ensures w'.numPts == w.numPts && w'.yDisp == w.yDisp && w'.vel == w.vel
    ensures w'.ph1 == w.ph1 && w'.ph2 == w.ph2
    ensures w'.tension == w.tension && w'.spread == w.spread && w'.damp == w.damp
    ensures Valid(w) ==> Valid(w')
  {
    w.(profile := profile)
  }

  /** Of two profile swaps only the last one is visible. */
  lemma SetProfileLastWins(w: Water, p: Weather, q: Weather)
    ensures SetProfile(SetProfile(w, p), q) == SetProfile(w, q)
  {
  }

  /** The failure of `NEXT_WEATHER[water.profile]` on a profile that is not a preset. */
  datatype CycleError = KeyError

  /** The right-click action `water.set_profile(NEXT_WEATHER[water.profile])`. */
  function CycleWeather(w: Water): (r: Result<Water, CycleError>)
    ensures r.Ok? <==> exists p :: Profile(p) == w.profile
    ensures forall p :: Profile(p) == w.profile ==> r == Ok(SetProfile(w, Profile(Next(p))))
  {
    match NextWeather(w.profile)
    case None => Err(KeyError)
    case Some(profile) => Ok(SetProfile(w, profile))
  }

  /**
   * Cycling the weather three times from any preset restores the water
   * exactly, and the first two cycles each change the profile.
   */
  lemma CycleWeatherThrice(w: Water, p: Preset)
    requires w.profile == Profile(p)
    ensures var r1 := CycleWeather(w);
      && r1.Ok? && r1.value.profile != w.profile
      && var r2 := CycleWeather(r1.value);
      && r2.Ok? && r2.value.profile != r1.value.profile && r2.value.profile != w.profile
      && CycleWeather(r2.value) == Ok(w)
  {
    NextIsThreeCycle(p);
    ProfileInjective(p, Next(p));
    ProfileInjective(p, Next(Next(p)));
    ProfileInjective(Next(p), Next(Next(p)));
  }

  // ---------------------------------------------------------------------------
  //  disturb
  // ---------------------------------------------------------------------------

  /** `int(x / POINT_SPACING)`: the point a horizontal position hits, truncated toward zero. */
  function PointIndex(x: real): (i: int)
    ensures 0.0 <= x ==> 0 <= i && 4.0 * i as real <= x < 4.0 * i as real + 4.0
    ensures x < 0.0 ==> i <= 0 && 4.0 * i as real - 4.0 < x <= 4.0 * i as real
  {
    Trunc(x / PointSpacing as real)
  }

  /**
   * The positions that hit a point of the chain: everything strictly between
   * -4 and 324. Truncation sends the whole of (-4, 0) to point 0.
   */
  lemma PointIndexInRange(x: real)
    ensures 0 <= PointIndex(x) < NumPoints <==> -4.0 < x < 324.0
    ensures -4.0 < x < 4.0 ==> PointIndex(x) == 0
  {
  }

  /** `disturb(x, magnitude)`: an impulse on the velocity of the point under `x`, if there is one. */
  function Disturb(w: Water, x: real, magnitude: real): (w': Water)
    requires Valid(w)
    ensures Valid(w')
    ensures w'.profile == w.profile && w'.yDisp == w.yDisp && w'.ph1 == w.ph1 && w'.ph2 == w.ph2
    ensures w' == w.(vel := w'.vel)
    ensures var i := PointIndex(x);
      0 <= i < w.numPts ==> w'.vel[i] == w.vel[i] - magnitude
    ensures forall j :: 0 <= j < w.numPts && j != PointIndex(x) ==> w'.vel[j] == w.vel[j]
    ensures !(0 <= PointIndex(x) < w.numPts) ==> w' == w
  {
    var i := PointIndex(x);
    if 0 <= i < w.numPts then w.(vel := w.vel[i := w.vel[i] - magnitude]) else w
  }

  /** Two disturbances of the same point add up; one of zero magnitude does nothing. */
  lemma DisturbAdds(w: Water, x: real, m1: real, m2: real)
    requires Valid(w)
    ensures Disturb(Disturb(w, x, m1), x, m2) == Disturb(w, x, m1 + m2)
    ensures Disturb(w, x, 0.0) == w
  {
  }

  /** Swapping the weather and disturbing the water do not interfere. */
  lemma DisturbCommutesWithSetProfile(w: Water, x: real, m: real, p: Weather)
    requires Valid(w)
    ensures Disturb(SetProfile(w, p), x, m) == SetProfile(Disturb(w, x, m), p)
  {
  }

  // ---------------------------------------------------------------------------
  //  update
  // ---------------------------------------------------------------------------

  /**
   * The force the loop body computes on point `i`: the pull toward its
   * target plus the coupling to whichever neighbours exist. The left
   * neighbour is read from `before`, the point itself and its right
   * neighbour from `row`; in the loop both are the same array.
   */
  function PointForce(i: int, before: seq<real>, row: seq<real>, target: real,
                      tension: real, spread: real): real
    requires 0 <= i < |row| && |before| == |row|
  {
    tension * (row[i] - target)
    + (if i > 0 then spread * (row[i] - before[i - 1]) else 0.0)
    + (if i < |row| - 1 then spread * (row[i] - row[i + 1]) else 0.0)
  }

  /** The two per-point arrays the force loop works on. */
  datatype Chain = Chain(yDisp: seq<real>, vel: seq<real>)

  /** The two arrays of a water surface. */
  function ChainOf(w: Water): (c: Chain)
    ensures c.yDisp == w.yDisp && c.vel == w.vel
  {
    Chain(w.yDisp, w.vel)
  }

  /** A velocity after one iteration: `(vel - force * dt) * exp(-damp * dt)`. */
  function Damped(vel: real, force: real, dt: real, decay: real): real
  {
    (vel - force * dt) * decay
  }

  /** A displacement after one iteration: moved by the new velocity over `dt`. */
  function Moved(y: real, vel: real, dt: real): real
  {
    y + vel * dt
  }

  /** The body of the force loop for point `i`: new velocity first, then the displacement moves by it. */
  function PointStep(i: nat, c: Chain, targets: seq<real>, tension: real, spread: real,
                     dt: real, decay: real): (c': Chain)
    requires |c.yDisp| == |targets| && |c.vel| == |targets| && i < |targets|
    ensures |c'.yDisp| == |targets| && |c'.vel| == |targets|
    ensures c'.vel[i] == Damped(c.vel[i], PointForce(i, c.yDisp, c.yDisp, targets[i], tension, spread), dt, decay)
    ensures c'.yDisp[i] == Moved(c.yDisp[i], c'.vel[i], dt)
    ensures forall j :: 0 <= j < |targets| && j != i ==> c'.yDisp[j] == c.yDisp[j] && c'.vel[j] == c.vel[j]
  {
    var v := Damped(c.vel[i], PointForce(i, c.yDisp, c.yDisp, targets[i], tension, spread), dt, decay);
    Chain(c.yDisp[i := Moved(c.yDisp[i], v, dt)], c.vel[i := v])
  }

  /**
   * Iterations `i..` of the force loop, in place: each point is updated in
   * the very arrays the next point's force is read from.
   */
  function RelaxFrom(i: nat, c: Chain, targets: seq<real>, tension: real, spread: real,
                     dt: real, decay: real): (r: Chain)
    requires |c.yDisp| == |targets| && |c.vel| == |targets| && i <= |targets|
    ensures |r.yDisp| == |targets| && |r.vel| == |targets|
    ensures forall j :: 0 <= j < i ==> r.yDisp[j] == c.yDisp[j] && r.vel[j] == c.vel[j]
    decreases |targets| - i
  {
    if i == |targets| then c
    else RelaxFrom(i + 1, PointStep(i, c, targets, tension, spread, dt, decay),
                   targets, tension, spread, dt, decay)
  }

  /**
   * Point `j` of `r` is what the loop body makes of point `j` of `c` when the
   * points before `j` already hold their new values from `r`: the left
   * neighbour is read after its update, the point and its right neighbour
   * before theirs.
   */
  predicate UpdatedInPlace(j: int, c: Chain, r: Chain, targets: seq<real>, tension: real,
                           spread: real, dt: real, decay: real)
    requires |c.yDisp| == |targets| && |c.vel| == |targets|
    requires |r.yDisp| == |targets| && |r.vel| == |targets|
    requires 0 <= j < |targets|
  {
    && r.vel[j] == Damped(c.vel[j], PointForce(j, r.yDisp, c.yDisp, targets[j], tension, spread), dt, decay)
    && r.yDisp[j] == Moved(c.yDisp[j], r.vel[j], dt)
  }

  /** `UpdatedInPlace` at `j` only looks at point `j` and beyond of the starting arrays. */
  lemma UpdatedInPlaceFromSuffix(j: int, c: Chain, c': Chain, r: Chain, targets: seq<real>,
                                 tension: real, spread: real, dt: real, decay: real)
    requires |c.yDisp| == |targets| && |c.vel| == |targets|
    requires |c'.yDisp| == |targets| && |c'.vel| == |targets|
    requires |r.yDisp| == |targets| && |r.vel| == |targets|
    requires 0 <= j < |targets|
    requires forall k :: j <= k < |targets| ==> c'.yDisp[k] == c.yDisp[k]
    requires c'.vel[j] == c.vel[j]
    requires UpdatedInPlace(j, c', r, targets, tension, spread, dt, decay)
    ensures UpdatedInPlace(j, c, r, targets, tension, spread, dt, decay)
  {
    assert PointForce(j, r.yDisp, c'.yDisp, targets[j], tension, spread)
        == PointForce(j, r.yDisp, c.yDisp, targets[j], tension, spread);
  }

  /** The force on point `i` reads nothing left of `i - 1` from `before`. */
  lemma PointForceLeft(i: int, before: seq<real>, before': seq<real>, row: seq<real>, target: real,
                       tension: real, spread: real)
    requires 0 <= i < |row| && |before| == |row| && |before'| == |row|
    requires i > 0 ==> before[i - 1] == before'[i - 1]
    ensures PointForce(i, before, row, target, tension, spread) == PointForce(i, before', row, target, tension, spread)
  {
  }

  /** The first iteration of a run `i..` updates point `i` in place. */
  lemma RelaxFromHead(i: nat, c: Chain, targets: seq<real>, tension: real,
                      spread: real, dt: real, decay: real)
    requires |c.yDisp| == |targets| && |c.vel| == |targets| && i < |targets|
    ensures UpdatedInPlace(i, c, RelaxFrom(i, c, targets, tension, spread, dt, decay), targets, tension, spread, dt, decay)
  {
    var c1 := PointStep(i, c, targets, tension, spread, dt, decay);
    var r := RelaxFrom(i + 1, c1, targets, tension, spread, dt, decay);
    assert RelaxFrom(i, c, targets, tension, spread, dt, decay) == r;
    var v, y := r.vel[i], r.yDisp[i];
    assert v == c1.vel[i] && y == c1.yDisp[i];
    PointForceLeft(i, r.yDisp, c.yDisp, c.yDisp, targets[i], tension, spread);
    var f := PointForce(i, r.yDisp, c.yDisp, targets[i], tension, spread);
    var f0 := PointForce(i, c.yDisp, c.yDisp, targets[i], tension, spread);
    assert f == f0;
    assert v == Damped(c.vel[i], f, dt, decay);
    assert y == Moved(c.yDisp[i], v, dt);
  }

  /** Point by point, iterations `i..` of the loop update the chain in place. */
  lemma {:induction false} RelaxFromInPlace(i: nat, c: Chain, targets: seq<real>, tension: real,
                                            spread: real, dt: real, decay: real)
    requires |c.yDisp| == |targets| && |c.vel| == |targets| && i <= |targets|
    ensures forall j :: i <= j < |targets| ==>
      UpdatedInPlace(j, c, RelaxFrom(i, c, targets, tension, spread, dt, decay), targets, tension, spread, dt, decay)
    decreases |targets| - i
  {
    if i < |targets| {
      var c1 := PointStep(i, c, targets, tension, spread, dt, decay);
      var r := RelaxFrom(i, c, targets, tension, spread, dt, decay);
      assert r == RelaxFrom(i + 1, c1, targets, tension, spread, dt, decay);
      RelaxFromHead(i, c, targets, tension, spread, dt, decay);
      RelaxFromInPlace(i + 1, c1, targets, tension, spread, dt, decay);
      forall j | i < j < |targets|
        ensures UpdatedInPlace(j, c, r, targets, tension, spread, dt, decay)
      {
        UpdatedInPlaceFromSuffix(j, c, c1, r, targets, tension, spread, dt, decay);
      }
    }
  }

  /** With no time elapsing and no damping applied, the loop changes nothing. */
  lemma {:induction false} RelaxFromStill(i: nat, c: Chain, targets: seq<real>, tension: real, spread: real)
    requires |c.yDisp| == |targets| && |c.vel| == |targets| && i <= |targets|
    ensures RelaxFrom(i, c, targets, tension, spread, 0.0, 1.0) == c
    decreases |targets| - i
  {
    if i < |targets| {
      var c1 := PointStep(i, c, targets, tension, spread, 0.0, 1.0);
      assert c1.yDisp == c.yDisp && c1.vel == c.vel;
      RelaxFromStill(i + 1, c, targets, tension, spread);
    }
  }

  /** A swell phase advanced at `speed` for `dt` seconds. */
  function Advance(ph: real, speed: real, dt: real): real
  {
    ph + speed * dt
  }

  /** Advancing a phase for `a` and then `b` seconds is advancing it for `a + b`. */
  lemma AdvanceAdds(ph: real, speed: real, a: real, b: real)
    ensures Advance(Advance(ph, speed, a), speed, b) == Advance(ph, speed, a + b)
  {
    assert speed * a + speed * b == speed * (a + b);
  }

  /** The damping factor `math.exp(-self.damp * dt)` applied to every velocity in one step. */
  function Decay(damp: real, dt: real, exp: real -> real): real
  {
    exp(-damp * dt)
  }

  /**
   * `update(dt)`: both phases advance by their speed times `dt`, the swell
   * targets are taken at the new phases, and the in-place force loop runs
   * once over the chain with the damping factor `exp(-damp * dt)`.
   */
  function Update(w: Water, dt: real, sin: real -> real, exp: real -> real): (w': Water)
    requires Valid(w)
    requires w.profile.wave1 != 0.0 && w.profile.wave2 != 0.0
    ensures Valid(w')
    ensures w'.ph1 == Advance(w.ph1, w.profile.speed1, dt) && w'.ph2 == Advance(w.ph2, w.profile.speed2, dt)
    ensures w' == w.(yDisp := w'.yDisp, vel := w'.vel, ph1 := w'.ph1, ph2 := w'.ph2)
  {
    var ph1 := Advance(w.ph1, w.profile.speed1, dt);
    var ph2 := Advance(w.ph2, w.profile.speed2, dt);
    var targets := Swell.Targets(w.profile, ph1, ph2, w.numPts, sin);
    var r := RelaxFrom(0, ChainOf(w), targets, w.tension, w.spread, dt, Decay(w.damp, dt, exp));
    w.(yDisp := r.yDisp, vel := r.vel, ph1 := ph1, ph2 := ph2)
  }

  /** Proof step for `UpdateInPlace`: `update`'s arrays, written as one run of the force loop from point 0. */
  lemma UpdateRuns(w: Water, dt: real, sin: real -> real, exp: real -> real)
    requires Valid(w)
    requires w.profile.wave1 != 0.0 && w.profile.wave2 != 0.0
    ensures var w' := Update(w, dt, sin, exp);
      ChainOf(w') == RelaxFrom(0, ChainOf(w), Swell.Targets(w.profile, w'.ph1, w'.ph2, w.numPts, sin),
                               w.tension, w.spread, dt, Decay(w.damp, dt, exp))
  {
  }

  /**
   * The per-point effect of one `update`: point `j` is pushed by the force
   * toward its swell target at the new phases and toward its neighbours,
   * where the left neighbour has already moved in this step and the right
   * one has not.
   */
  lemma UpdateInPlace(w: Water, dt: real, sin: real -> real, exp: real -> real)
    requires Valid(w)
    requires w.profile.wave1 != 0.0 && w.profile.wave2 != 0.0
    ensures var w' := Update(w, dt, sin, exp);
      forall j :: 0 <= j < w.numPts ==>
        UpdatedInPlace(j, ChainOf(w), ChainOf(w'),
                       Swell.Targets(w.profile, w'.ph1, w'.ph2, w.numPts, sin),
                       w.tension, w.spread, dt, Decay(w.damp, dt, exp))
  {
    var w' := Update(w, dt, sin, exp);
    var targets := Swell.Targets(w.profile, w'.ph1, w'.ph2, w.numPts, sin);
    UpdateRuns(w, dt, sin, exp);
    RelaxFromInPlace(0, ChainOf(w), targets, w.tension, w.spread, dt, Decay(w.damp, dt, exp));
  }

  /** A step of zero length leaves the surface where it is, provided `exp(0) = 1`. */
  lemma UpdateZeroStep(w: Water, sin: real -> real, exp: real -> real)
    requires Valid(w)
    requires w.profile.wave1 != 0.0 && w.profile.wave2 != 0.0
    requires exp(0.0) == 1.0
    ensures Update(w, 0.0, sin, exp) == w
  {
    var targets := Swell.Targets(w.profile, w.ph1, w.ph2, w.numPts, sin);
    assert -w.damp * 0.0 == 0.0;
    RelaxFromStill(0, ChainOf(w), targets, w.tension, w.spread);
  }

  /**
   * With every swell target at 0 (the force loop alone, without the swell),
   * an impulse on a still, flat chain spreads only to the right within one
   * step: the points left of the hit stay at rest, while the hit point and
   * its right neighbour both dip. A double-buffered loop would leave the
   * right neighbour at rest too. `DisturbInvisibleLeft` states the left half
   * for any swell.
   */
  lemma ImpulseSpreadsRightOnly(c: Chain, targets: seq<real>, tension: real, spread: real,
                                dt: real, decay: real, k: int, m: real)
    requires |c.yDisp| == |targets| && |c.vel| == |targets|
    requires 0 < k < |targets| - 1
    requires forall j :: 0 <= j < |targets| ==> c.yDisp[j] == 0.0 && targets[j] == 0.0
    requires forall j :: 0 <= j < |targets| && j != k ==> c.vel[j] == 0.0
    requires c.vel[k] == -m && m > 0.0
    requires spread > 0.0 && dt > 0.0 && decay > 0.0
    ensures var r := RelaxFrom(0, c, targets, tension, spread, dt, decay);
      forall j :: 0 <= j < k ==> r.yDisp[j] == 0.0 && r.vel[j] == 0.0
    ensures var r := RelaxFrom(0, c, targets, tension, spread, dt, decay);
      r.yDisp[k] < 0.0 && r.yDisp[k + 1] < 0.0
  {
    var r := RelaxFrom(0, c, targets, tension, spread, dt, decay);
    RelaxFromInPlace(0, c, targets, tension, spread, dt, decay);
    assert forall j :: 0 <= j < |targets| ==> UpdatedInPlace(j, c, r, targets, tension, spread, dt, decay);
    StillLeftOfImpulse(c, r, targets, tension, spread, dt, decay, k, k);
    HitPointDips(c, r, targets, tension, spread, dt, decay, k, m);
    RightNeighbourDips(c, r, targets, tension, spread, dt, decay, k);
  }

  /** The hit point feels no force yet, only its impulse, so it moves down by `m * decay * dt`. */
  lemma HitPointDips(c: Chain, r: Chain, targets: seq<real>, tension: real, spread: real,
                     dt: real, decay: real, k: int, m: real)
    requires |c.yDisp| == |targets| && |c.vel| == |targets| && |r.yDisp| == |targets| && |r.vel| == |targets|
    requires 0 < k < |targets| - 1
    requires c.yDisp[k] == 0.0 && c.yDisp[k + 1] == 0.0 && targets[k] == 0.0 && r.yDisp[k - 1] == 0.0
    requires c.vel[k] == -m && m > 0.0 && dt > 0.0 && decay > 0.0
    requires UpdatedInPlace(k, c, r, targets, tension, spread, dt, decay)
    ensures r.yDisp[k] < 0.0
  {
    assert PointForce(k, r.yDisp, c.yDisp, targets[k], tension, spread) == 0.0;
    assert r.vel[k] == -m * decay;
    assert m * decay * dt > 0.0 by {
      assert m * decay > 0.0;
    }
  }

  /** The right neighbour of a point that has just dipped, starting at rest on a zero target, is pulled down in the same step. */
  lemma RightNeighbourDips(c: Chain, r: Chain, targets: seq<real>, tension: real, spread: real,
                           dt: real, decay: real, k: int)
    requires |c.yDisp| == |targets| && |c.vel| == |targets| && |r.yDisp| == |targets| && |r.vel| == |targets|
    requires 0 <= k < |targets| - 1
    requires c.yDisp[k + 1] == 0.0 && c.vel[k + 1] == 0.0 && targets[k + 1] == 0.0
    requires k + 2 < |targets| ==> c.yDisp[k + 2] == 0.0
    requires r.yDisp[k] < 0.0 && spread > 0.0 && dt > 0.0 && decay > 0.0
    requires UpdatedInPlace(k + 1, c, r, targets, tension, spread, dt, decay)
    ensures r.yDisp[k + 1] < 0.0
  {
    var f := PointForce(k + 1, r.yDisp, c.yDisp, targets[k + 1], tension, spread);
    assert f == spread * (0.0 - r.yDisp[k]);
    assert f > 0.0;
    assert f * dt * decay > 0.0 by {
      assert f * dt > 0.0;
    }
    assert r.vel[k + 1] == -(f * dt * decay);
    assert r.vel[k + 1] * dt < 0.0;
  }

  /** With every swell target at 0, the points left of an impulse, given the per-point description of the loop, stay at rest. */
  lemma {:induction false} StillLeftOfImpulse(c: Chain, r: Chain, targets: seq<real>, tension: real,
                                              spread: real, dt: real, decay: real, k: int, n: int)
    requires |c.yDisp| == |targets| && |c.vel| == |targets| && |r.yDisp| == |targets| && |r.vel| == |targets|
    requires 0 <= n <= k < |targets|
    requires forall j :: 0 <= j < |targets| ==> c.yDisp[j] == 0.0 && targets[j] == 0.0
    requires forall j :: 0 <= j < k ==> c.vel[j] == 0.0
    requires forall j :: 0 <= j < |targets| ==> UpdatedInPlace(j, c, r, targets, tension, spread, dt, decay)
    ensures forall j :: 0 <= j < n ==> r.yDisp[j] == 0.0 && r.vel[j] == 0.0
    decreases n
  {
    if n > 0 {
      StillLeftOfImpulse(c, r, targets, tension, spread, dt, decay, k, n - 1);
      var j := n - 1;
      assert UpdatedInPlace(j, c, r, targets, tension, spread, dt, decay);
      assert PointForce(j, r.yDisp, c.yDisp, targets[j], tension, spread) == 0.0;
    }
  }

  /**
   * Whatever the swell targets, two in-place passes over chains that differ
   * only in velocities at or right of `k` agree on every point left of `n`,
   * for any `n <= k`: a point reads its own velocity, its own and its right
   * neighbour's old displacement, and its left neighbour's new one.
   */
  lemma {:induction false} AgreeLeftOf(c: Chain, c': Chain, r: Chain, r': Chain, targets: seq<real>,
                                       tension: real, spread: real, dt: real, decay: real, k: int, n: int)
    requires |c.yDisp| == |targets| && |c.vel| == |targets| && |r.yDisp| == |targets| && |r.vel| == |targets|
    requires |c'.vel| == |targets| && |r'.yDisp| == |targets| && |r'.vel| == |targets|
    requires c'.yDisp == c.yDisp
    requires 0 <= n <= k <= |targets|
    requires forall j :: 0 <= j < k ==> c'.vel[j] == c.vel[j]
    requires forall j :: 0 <= j < |targets| ==> UpdatedInPlace(j, c, r, targets, tension, spread, dt, decay)
    requires forall j :: 0 <= j < |targets| ==> UpdatedInPlace(j, c', r', targets, tension, spread, dt, decay)
    ensures forall j :: 0 <= j < n ==> r'.yDisp[j] == r.yDisp[j] && r'.vel[j] == r.vel[j]
    decreases n
  {
    if n > 0 {
      AgreeLeftOf(c, c', r, r', targets, tension, spread, dt, decay, k, n - 1);
      var j := n - 1;
      assert UpdatedInPlace(j, c, r, targets, tension, spread, dt, decay);
      assert UpdatedInPlace(j, c', r', targets, tension, spread, dt, decay);
      PointForceLeft(j, r'.yDisp, r.yDisp, c.yDisp, targets[j], tension, spread);
    }
  }

  /**
   * In `update` an impulse never reaches the left of the point it hits:
   * under any weather, the points left of the hit end the step exactly as
   * they would have without the `disturb`. The swell still moves them toward
   * their targets; it moves them the same way in both cases.
   */
  lemma DisturbInvisibleLeft(w: Water, x: real, m: real, dt: real, sin: real -> real, exp: real -> real)
    requires Valid(w)
    requires w.profile.wave1 != 0.0 && w.profile.wave2 != 0.0
    ensures var u := Update(w, dt, sin, exp);
      var u' := Update(Disturb(w, x, m), dt, sin, exp);
      forall j :: 0 <= j < PointIndex(x) && j < w.numPts ==> u'.yDisp[j] == u.yDisp[j] && u'.vel[j] == u.vel[j]
  {
    var d := Disturb(w, x, m);
    var u := Update(w, dt, sin, exp);
    var u' := Update(d, dt, sin, exp);
    var targets := Swell.Targets(w.profile, u.ph1, u.ph2, w.numPts, sin);
    assert d.damp == w.damp;
    assert u'.ph1 == u.ph1 && u'.ph2 == u.ph2;
    UpdateInPlace(w, dt, sin, exp);
    UpdateInPlace(d, dt, sin, exp);
    var k := if PointIndex(x) < w.numPts then PointIndex(x) else w.numPts;
    if k > 0 {
      AgreeLeftOf(ChainOf(w), ChainOf(d), ChainOf(u), ChainOf(u'), targets, w.tension, w.spread, dt,
                  Decay(w.damp, dt, exp), k, k);
    }
  }

  /** The phases advance linearly in elapsed time: two steps of `a` and `b` move them as one step of `a + b`. */
  lemma PhasesAccumulate(w: Water, a: real, b: real, sin: real -> real, exp: real -> real)
    requires Valid(w)
    requires w.profile.wave1 != 0.0 && w.profile.wave2 != 0.0
    ensures var w2 := Update(Update(w, a, sin, exp), b, sin, exp);
      && w2.ph1 == Advance(w.ph1, w.profile.speed1, a + b)
      && w2.ph2 == Advance(w.ph2, w.profile.speed2, a + b)
  {
    AdvanceAdds(w.ph1, w.profile.speed1, a, b);
    AdvanceAdds(w.ph2, w.profile.speed2, a, b);
  }
}
