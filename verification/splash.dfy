/**
 * The splash spray of water.py: `SplashParticle`s that fall under gravity
 * and expire after 1.2 seconds, and the `SplashManager` group that disturbs
 * the water and throws a burst of 28 of them.
 *
 * Positions are exact reals; the integer `Rect` a pygame sprite keeps is
 * not modelled. The random launch angle and speed, and `math.cos` and
 * `math.sin`, are parameters.
 */
module Splash {
  import opened Results
  import opened PyNum
  import opened Screen
  import opened HeightField

  /** The downward acceleration of every particle, in pixels per second squared. */
  const Gravity: real := 120.0

  /** The lifetime of a fresh particle, in seconds. */
  const Lifetime: real := 1.2

  /** The number of particles one splash throws. */
  const BurstSize: nat := 28

  /** A spray droplet: position, velocity, gravity and remaining life. */
  datatype Particle = Particle(x: real, y: real, vx: real, vy: real, gravity: real, life: real)

  /** One random draw of `SplashParticle.__init__`: launch angle (radians) and speed. */
  datatype Spray = Spray(angle: real, speed: real)

  /** `SplashParticle(x, y)` with the given draw: launched along the angle, with a full life. */
  function Spawn(x: real, y: real, s: Spray, cos: real -> real, sin: real -> real): (p: Particle)
    ensures p.x == x && p.y == y
    ensures p.gravity == Gravity && p.life == Lifetime
    ensures p.vx == s.speed * cos(s.angle) && p.vy == s.speed * sin(s.angle)
  {
    Particle(x, y, s.speed * cos(s.angle), s.speed * sin(s.angle), Gravity, Lifetime)
  }

  /**
   * `SplashParticle.update(dt)`: gravity first accelerates the particle, the
   * position then moves by the new velocity, and the particle dies (`None`,
   * `kill()`) once its remaining life is no longer positive.
   */
  function Step(p: Particle, dt: real): (r: Option<Particle>)
    ensures r.None? <==> p.life - dt <= 0.0
    ensures r.Some? ==> r.value.life == p.life - dt && r.value.life > 0.0
    ensures r.Some? ==> r.value.vy == p.vy + p.gravity * dt && r.value.vx == p.vx
    ensures r.Some? ==> r.value.gravity == p.gravity
    ensures r.Some? ==> r.value.x == p.x + p.vx * dt && r.value.y == p.y + r.value.vy * dt
  {
    var vy := p.vy + p.gravity * dt;
    var life := p.life - dt;
    if life <= 0.0 then None
    else Some(Particle(p.x + p.vx * dt, p.y + vy * dt, p.vx, vy, p.gravity, life))
  }

  /** The total of a sequence of frame times. */
  function Sum(dts: seq<real>): real
  {
    if |dts| == 0 then 0.0 else dts[0] + Sum(dts[1..])
  }

  /** Frame times are never negative (`clock.tick` reports elapsed milliseconds). */
  predicate NonNegative(dts: seq<real>)
  {
    forall i :: 0 <= i < |dts| ==> dts[i] >= 0.0
  }

  lemma {:induction false} SumNonNegative(dts: seq<real>)
    requires NonNegative(dts)
    ensures Sum(dts) >= 0.0
  {
    if |dts| > 0 {
      SumNonNegative(dts[1..]);
    }
  }

  /** The flight of a particle updated once per frame, for the given frame times, or `None` once it has died. */
  function Fly(p: Particle, dts: seq<real>): (r: Option<Particle>)
    ensures |dts| == 0 ==> r == Some(p)
    decreases |dts|
  {
    if |dts| == 0 then Some(p)
    else match Step(p, dts[0])
      case None => None
      case Some(q) => Fly(q, dts[1..])
  }

  /**
   * Over any run of non-negative frame times a particle is alive exactly
   * while its life exceeds the elapsed time; while alive, its life has gone
   * down by the elapsed time and its vertical velocity up by gravity times
   * it, and its horizontal velocity has not changed.
   */
  lemma {:induction false} FlightBookkeeping(p: Particle, dts: seq<real>)
    requires NonNegative(dts)
    requires p.life > 0.0
    ensures Fly(p, dts).Some? <==> p.life - Sum(dts) > 0.0
    ensures Fly(p, dts).Some? ==>
      var q := Fly(p, dts).value;
      && q.life == p.life - Sum(dts)
      && q.vy == p.vy + p.gravity * Sum(dts)
      && q.vx == p.vx && q.gravity == p.gravity
    decreases |dts|
  {
    if |dts| > 0 {
      var rest := dts[1..];
      assert NonNegative(rest);
      assert Sum(dts) == dts[0] + Sum(rest);
      SumNonNegative(rest);
      match Step(p, dts[0])
      case None =>
        assert p.life - Sum(dts) <= 0.0;
      case Some(q) =>
        FlightBookkeeping(q, rest);
        assert p.gravity * dts[0] + p.gravity * Sum(rest) == p.gravity * Sum(dts);
    }
  }

  /** A fresh particle is gone once frames totalling its 1.2-second lifetime have passed. */
  lemma FreshParticleExpires(x: real, y: real, s: Spray, cos: real -> real, sin: real -> real,
                             dts: seq<real>)
    requires NonNegative(dts)
    requires Sum(dts) >= Lifetime
    ensures Fly(Spawn(x, y, s, cos, sin), dts).None?
  {
    FlightBookkeeping(Spawn(x, y, s, cos, sin), dts);
  }

  /** A fresh particle survives any run of frames totalling less than its lifetime. */
  lemma FreshParticleSurvives(x: real, y: real, s: Spray, cos: real -> real, sin: real -> real,
                              dts: seq<real>)
    requires NonNegative(dts)
    requires Sum(dts) < Lifetime
    ensures Fly(Spawn(x, y, s, cos, sin), dts).Some?
  {
    FlightBookkeeping(Spawn(x, y, s, cos, sin), dts);
  }

  // ---------------------------------------------------------------------------
  //  The group
  // ---------------------------------------------------------------------------

  /**
   * The positions, in increasing order, of the particles that survive a step
   * of `dt`: every survivor's position appears, exactly once, and no other.
   */
  function Survivors(ps: seq<Particle>, dt: real): (ix: seq<nat>)
    ensures forall j :: 0 <= j < |ix| ==> ix[j] < |ps| && Step(ps[ix[j]], dt).Some?
    ensures forall j, k :: 0 <= j < k < |ix| ==> ix[j] < ix[k]
    ensures forall i :: 0 <= i < |ps| && Step(ps[i], dt).Some? ==> i in ix
  {
    if |ps| == 0 then []
    else
      var n := |ps| - 1;
      var earlier := Survivors(ps[..n], dt);
      assert forall i :: 0 <= i < n ==> ps[..n][i] == ps[i];
      if Step(ps[n], dt).Some? then earlier + [n] else earlier
  }

  /**
   * `Group.update(dt)` on the particles: each is stepped, the ones that died
   * leave the group, and the survivors keep their order, one entry each.
   */
  function Tick(ps: seq<Particle>, dt: real): (r: seq<Particle>)
    ensures |r| == |Survivors(ps, dt)| <= |ps|
    ensures forall j :: 0 <= j < |r| ==> Step(ps[Survivors(ps, dt)[j]], dt) == Some(r[j])
  {
    if |ps| == 0 then []
    else
      var n := |ps| - 1;
      var earlier := Tick(ps[..n], dt);
      assert forall i :: 0 <= i < n ==> ps[..n][i] == ps[i];
      match Step(ps[n], dt)
      case None => earlier
      case Some(q) => earlier + [q]
  }

  /** The stepped survivors, and only they, are in the group after `Group.update`. */
  lemma TickMembers(ps: seq<Particle>, dt: real)
    ensures forall i :: 0 <= i < |ps| && Step(ps[i], dt).Some? ==> Step(ps[i], dt).value in Tick(ps, dt)
    ensures forall q :: q in Tick(ps, dt) ==> exists i :: 0 <= i < |ps| && Step(ps[i], dt) == Some(q)
  {
    var r, ix := Tick(ps, dt), Survivors(ps, dt);
    forall i | 0 <= i < |ps| && Step(ps[i], dt).Some?
      ensures Step(ps[i], dt).value in r
    {
      var j :| 0 <= j < |ix| && ix[j] == i;
      assert Step(ps[ix[j]], dt) == Some(r[j]);
    }
    forall q | q in r
      ensures exists i :: 0 <= i < |ps| && Step(ps[i], dt) == Some(q)
    {
      var j :| 0 <= j < |r| && r[j] == q;
      assert Step(ps[ix[j]], dt) == Some(r[j]);
    }
  }

  /** Equal particles are separate sprites: a group of two equal survivors still holds two after the update. */
  lemma TickKeepsEqualParticles(p: Particle, dt: real)
    requires p.life - dt > 0.0
    ensures Tick([p, p], dt) == [Step(p, dt).value, Step(p, dt).value]
  {
    assert [p, p][..1] == [p];
    assert [p][..0] == [];
  }

  /** Every particle of the group has some life left and no more than a fresh one. */
  predicate LifeBounded(ps: seq<Particle>)
  {
    forall i :: 0 <= i < |ps| ==> 0.0 < ps[i].life <= Lifetime
  }

  /** `Group.update` keeps the life bound for any non-negative frame time. */
  lemma TickKeepsLifeBounded(ps: seq<Particle>, dt: real)
    requires LifeBounded(ps) && dt >= 0.0
    ensures LifeBounded(Tick(ps, dt))
  {
    var r := Tick(ps, dt);
    forall k | 0 <= k < |r|
      ensures 0.0 < r[k].life <= Lifetime
    {
      assert r[k] in r;
    }
  }

  /** A frame at least as long as the lifetime empties a group of bounded particles. */
  lemma LongFrameClearsGroup(ps: seq<Particle>, dt: real)
    requires LifeBounded(ps) && dt >= Lifetime
    ensures Tick(ps, dt) == []
  {
  }

  /** The `SplashManager`: the water it disturbs and the particles it holds. */
  datatype SplashManager = SplashManager(water: Water, particles: seq<Particle>)

  /** `SplashManager(water)`: no particles yet. */
  function NewManager(water: Water): (m: SplashManager)
    ensures m.water == water && |m.particles| == 0
    ensures LifeBounded(m.particles)
  {
    SplashManager(water, [])
  }

  /** The failure of `y_disp[...]` on an index the list does not have. */
  datatype SplashError = IndexError

  /** Python list indexing: a negative index counts from the end; anything else outside raises. */
  function PyIndex<T>(s: seq<T>, i: int): (r: Option<T>)
    ensures r.Some? <==> -|s| <= i < |s|
    ensures 0 <= i < |s| ==> r == Some(s[i])
    ensures -|s| <= i < 0 ==> r == Some(s[|s| + i])
  {
    if 0 <= i < |s| then Some(s[i])
    else if -|s| <= i < 0 then Some(s[|s| + i])
    else None
  }

  /** The burst of `BurstSize` particles thrown from `(x, y)`, one per draw. */
  function Burst(x: real, y: real, draw: int -> Spray, cos: real -> real, sin: real -> real): (b: seq<Particle>)
    ensures |b| == BurstSize
    ensures forall k :: 0 <= k < BurstSize ==> b[k] == Spawn(x, y, draw(k), cos, sin)
  {
    seq(BurstSize, k => Spawn(x, y, draw(k), cos, sin))
  }

  /**
   * `splash(x, magnitude)` as written: the water is disturbed, then the
   * surface height under `x` is read with an unchecked list index, and 28
   * particles are thrown from two pixels above it. An index past the end of
   * the chain raises `IndexError`; a negative one reads a point from the
   * far end.
   */
  function SplashAt(m: SplashManager, x: real, magnitude: real, draw: int -> Spray,
                    cos: real -> real, sin: real -> real): (r: Result<SplashManager, SplashError>)
    requires Valid(m.water)
    ensures r.Ok? <==> -NumPoints <= PointIndex(x) < NumPoints
    ensures r.Ok? ==> r.value.water == Disturb(m.water, x, magnitude)
    ensures r.Ok? ==> |r.value.particles| == |m.particles| + BurstSize
    ensures r.Ok? ==> r.value.particles[..|m.particles|] == m.particles
    ensures r.Ok? ==>
      var i := PointIndex(x);
      var h := if 0 <= i then m.water.yDisp[i] else m.water.yDisp[NumPoints + i];
      forall k :: 0 <= k < BurstSize ==>
        r.value.particles[|m.particles| + k] == Spawn(x, WaterY as real + h - 2.0, draw(k), cos, sin)
  {
    var water := Disturb(m.water, x, magnitude);
    match PyIndex(water.yDisp, PointIndex(x))
    case None => Err(IndexError)
    case Some(h) =>
      Ok(SplashManager(water, m.particles + Burst(x, WaterY as real + h - 2.0, draw, cos, sin)))
  }

  /** A splash that raises has left the water as it found it: `disturb` ignored the same index. */
  lemma SplashFailureLeavesWaterUnchanged(m: SplashManager, x: real, magnitude: real, draw: int -> Spray,
                                          cos: real -> real, sin: real -> real)
    requires Valid(m.water)
    requires SplashAt(m, x, magnitude, draw, cos, sin).Err?
    ensures Disturb(m.water, x, magnitude) == m.water
  {
  }

  /**
   * A click at x = 324, one point spacing past the last point, is ignored
   * by `disturb` yet makes `splash` raise.
   */
  lemma SplashPastRightEdgeFails(m: SplashManager, magnitude: real, draw: int -> Spray,
                                 cos: real -> real, sin: real -> real)
    requires Valid(m.water)
    ensures Disturb(m.water, 324.0, magnitude) == m.water
    ensures SplashAt(m, 324.0, magnitude, draw, cos, sin) == Err(IndexError)
  {
    assert PointIndex(324.0) == 81;
  }

  /**
   * A click at x = -4 is ignored by `disturb`, yet `splash` succeeds and
   * throws its particles from the height of the last point, at the far
   * right of the screen.
   */
  lemma SplashLeftOfEdgeReadsFarEnd(m: SplashManager, magnitude: real, draw: int -> Spray,
                                    cos: real -> real, sin: real -> real)
    requires Valid(m.water)
    ensures Disturb(m.water, -4.0, magnitude) == m.water
    ensures var r := SplashAt(m, -4.0, magnitude, draw, cos, sin);
      && r.Ok?
      && r.value.particles[|m.particles|].y == WaterY as real + m.water.yDisp[NumPoints - 1] - 2.0
  {
    assert PointIndex(-4.0) == -1;
  }

  /**
   * The surface lookup guarded by the same bounds test `disturb` uses; off
   * the chain the surface is at the still-water line.
   */
  function SurfaceUnder(w: Water, x: real): (h: real)
    requires Valid(w)
    ensures 0 <= PointIndex(x) < w.numPts ==> h == w.yDisp[PointIndex(x)]
    ensures !(0 <= PointIndex(x) < w.numPts) ==> h == 0.0
  {
    var i := PointIndex(x);
    if 0 <= i < w.numPts then w.yDisp[i] else 0.0
  }

  /** `splash` with the surface lookup bounds-checked: it never fails. */
  function SplashGuarded(m: SplashManager, x: real, magnitude: real, draw: int -> Spray,
                         cos: real -> real, sin: real -> real): (m': SplashManager)
    requires Valid(m.water)
    ensures m'.water == Disturb(m.water, x, magnitude)
    ensures |m'.particles| == |m.particles| + BurstSize
    ensures m'.particles[..|m.particles|] == m.particles
    ensures forall k :: 0 <= k < BurstSize ==>
      m'.particles[|m.particles| + k]
        == Spawn(x, WaterY as real + SurfaceUnder(m.water, x) - 2.0, draw(k), cos, sin)
  {
    var water := Disturb(m.water, x, magnitude);
    SplashManager(water, m.particles + Burst(x, WaterY as real + SurfaceUnder(water, x) - 2.0, draw, cos, sin))
  }

  /**
   * Wherever `disturb` reaches the chain, the guarded splash and the one as
   * written agree; everywhere else the guarded one still throws its burst.
   */
  lemma SplashGuardedAgrees(m: SplashManager, x: real, magnitude: real, draw: int -> Spray,
                            cos: real -> real, sin: real -> real)
    requires Valid(m.water)
    ensures 0 <= PointIndex(x) < NumPoints ==>
      SplashAt(m, x, magnitude, draw, cos, sin) == Ok(SplashGuarded(m, x, magnitude, draw, cos, sin))
  {
  }

  /** A splash keeps the life bound of the group: old particles are untouched, new ones are fresh. */
  lemma SplashKeepsLifeBounded(m: SplashManager, x: real, magnitude: real, draw: int -> Spray,
                               cos: real -> real, sin: real -> real)
    requires Valid(m.water) && LifeBounded(m.particles)
    ensures LifeBounded(SplashGuarded(m, x, magnitude, draw, cos, sin).particles)
    ensures var r := SplashAt(m, x, magnitude, draw, cos, sin);
      r.Ok? ==> LifeBounded(r.value.particles)
  {
    var n := |m.particles|;
    var g := SplashGuarded(m, x, magnitude, draw, cos, sin).particles;
    forall i | 0 <= i < |g|
      ensures 0.0 < g[i].life <= Lifetime
    {
      if i < n {
        assert g[i] == g[..n][i];
      } else {
        assert g[n + (i - n)] == g[i];
      }
    }
    var r := SplashAt(m, x, magnitude, draw, cos, sin);
    if r.Ok? {
      var ps := r.value.particles;
      forall i | 0 <= i < |ps|
        ensures 0.0 < ps[i].life <= Lifetime
      {
        if i < n {
          assert ps[i] == ps[..n][i];
        } else {
          assert ps[n + (i - n)] == ps[i];
        }
      }
    }
  }
}
