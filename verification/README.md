# Boat game: sand, water and splash cores in Dafny

This project models the three discrete cores of a small pygame prototype and proves properties about them.

- **Falling sand (main.py).** `update(grid)` is one step of a cellular automaton on a 0/1 board.
  - It takes a row-major snapshot of the occupied cells.
  - Each grain in the snapshot tries three targets in order: the cell under it, the one under-right, then the one under-left.
  - All coordinates are clipped into the board.
  - Each free test reads the board as earlier grains in the same step have left it.
- **Water simulator (water.py).**
  - The three `Weather` presets and the `NEXT_WEATHER` ring.
  - The `Water` height field: 81 surface points, with `set_profile`, `disturb` and `update`. `update` is the two swell phases plus the in-place spring loop.
  - `SplashParticle` bookkeeping.
  - `SplashManager.splash`.
- **Gradient water demo (main2.py).** The colour `lerp` with `int` truncation, the phase step, and the per-strip arithmetic of `draw`.

Modules, one file per module, except gradient.dfy, which holds both `Proportion` and `Gradient`:

| module | file | contents |
|---|---|---|
| `Results` | results.dfy | `Option` and `Result` |
| `PyNum` | pynum.dfy | Python's `int()` on a float, which truncates toward zero |
| `Screen` | screen.dfy | 320×180 resolution, still-water line 90, point spacing 4 |
| `SandGrid` | sand_grid.dfy | the board, the `np.where` snapshot, the grain count |
| `Sand` | sand.dfy | targets, landing choice, one move, and the `update` loop |
| `WeatherPresets` | weather.dfy | `Weather`, `CALM`/`BREEZY`/`STORMY`, `NEXT_WEATHER` |
| `Swell` | swell.dfy | the two-sine swell target of each surface point |
| `HeightField` | heightfield.dfy | `Water`: construction, `set_profile`, weather cycling, `disturb`, `update` |
| `Splash` | splash.dfy | `SplashParticle`, the sprite group update, `SplashManager.splash` |
| `Proportion`, `Gradient` | gradient.dfy | a fraction of a difference, then main2.py's `lerp`, `Water.update` and strip parameters |

Points where the code's behaviour is easy to misread, and how the model follows it:

- **Force loop.** `Water.update` updates the chain in place (water.py:95-103). When point `i` is computed, point `i-1` already holds its new displacement, while point `i+1` still holds its old one. A snapshot (Jacobi) update would read the old left neighbour as well. `HeightField.UpdateInPlace` states the in-place behaviour. `HeightField.ImpulseSpreadsRightOnly` shows one consequence: an impulse reaches the right neighbour within the same step, but not the left one.
- **Index of `disturb`.** `disturb` uses `int(x / 4)` (water.py:80). `int()` truncates toward zero, so every x in (-4, 0) hits point 0. Flooring would send those x to -1, which `disturb` ignores.
- **`NEXT_WEATHER` keys.** `Weather` objects are hashed by identity. The model looks them up by value. This is equivalent because the three presets are pairwise different (`WeatherPresets.ProfileInjective`).
- **Free test.** In the sand loop, "free" is `1 - grid[t]` being truthy, i.e. `grid[t] != 1`. It is modelled as exactly that.
- **Sand step as a run.** `Sand.Settle` and `Sand.LandingsFrom` restate the loop of `update` as a run over the snapshot, one grain after the other, each reading the board the earlier moves left. `Sand.Update` returns exactly their results.

`sin`, `cos` and `exp` are parameters of the functions that use them. So each statement about the water step, the spray and the strip shift holds for any functions in their place.

## Model

| member | source | states |
|---|---|---|
| PyNum.Trunc | water.py:80 | `int()` on a float truncates toward zero: the result is the integer between 0 and x that is less than one away from x. |
| SandGrid.Occupied | main.py:40 | `np.where(grid)` lists every non-zero cell exactly once, in row-major order, and nothing else. |
| SandGrid.OccupiedCount | main.py:40 | The snapshot is exactly as long as the number of grains on the board. |
| SandGrid.CountSet | main.py:62-63 | Writing one cell changes the grain count by the difference between the new and old cell's occupancy. |
| SandGrid.SetCell | main.py:62-63 | A numpy single-cell assignment changes that cell and no other, and keeps the shape. |
| Sand.Clip | main.py:43-54 | `np.clip` lands in `[lo, hi]`, leaves in-range values alone and maps values below/above to the nearest bound. |
| Sand.Targets | main.py:43-54 | The three targets, in trial order, are in the board. Each is one row down, or the same row on the bottom row. Their columns are the grain's own, one right (clipped), and one left (clipped). |
| Sand.FirstFree | main.py:58-72 | The chosen target is free and every target tried before it is taken; `None` means all are taken. |
| Sand.Landing | main.py:61-72 | The landing follows the priority under, then under-right, then under-left. It is free when the grain moves, and is the grain's own cell when all three are taken. It is never above the grain and never more than one column away. |
| Sand.MoveGrain | main.py:61-72 | A move clears the grain's cell, sets its landing to 1 and touches no other cell. A grain with nowhere to go leaves the board unchanged. The shape is kept. |
| Sand.MoveGrainBinary | main.py:62-71 | Moves only write 0 and 1, so a 0/1 board stays 0/1. |
| Sand.MoveGrainConserves | main.py:61-71 | On a 0/1 board, moving a grain that is present keeps the grain count. |
| Sand.SettledAtStart | main.py:40-56 | Before the first move, on a 0/1 board, every snapshot grain is present and no grain has been processed, so the run invariant holds. |
| Sand.SettledStep | main.py:56-72 | One move keeps the run invariant: the board is 0/1; the unprocessed snapshot grains are still in place; the landings so far are occupied, pairwise distinct, and distinct from the unprocessed grains. |
| Sand.RunDownhill | main.py:56-72 | Every grain of a run lands on the board, at most one row down and one column sideways from its cell. |
| Sand.RunSettled | main.py:56-72 | On a 0/1 board, a run of the remaining grains keeps the run invariant to the end of the snapshot and keeps the grain count. |
| Sand.RunOutcome | main.py:39-74 | A whole run lands every grain downhill on the board. On a 0/1 board its result is 0/1 and keeps the grain count, and every landing is occupied and distinct from the others. |
| Sand.Update | main.py:39-74 | `update` returns exactly the board and landings of the run over the row-major snapshot. Grains are tried in snapshot order; each takes the first free target (under, under-right, under-left) on the board the earlier moves left. The board keeps its dimensions, and every grain moves at most one step downhill. On a 0/1 board the result is 0/1, keeps the grain count and the snapshot length, and every landing is occupied and distinct from the others. |
| Sand.FloorGrainSlides | main.py:43-54 | On the bottom row, clipping turns the diagonal targets into same-row neighbours, so a floor grain slides sideways. |
| Sand.LaterGrainSeesEarlierMove | main.py:56-60 | The free tests are re-read after each move: a grain finds the cell an earlier grain just took occupied and stays. |
| WeatherPresets.Profile | water.py:50-54 | The preset constants; every amplitude, wavelength and speed is positive. |
| WeatherPresets.Next | water.py:55 | Each step of the ring changes the preset. |
| WeatherPresets.NextIsThreeCycle | water.py:55 | Three steps from any preset return to it, and two steps never do. |
| WeatherPresets.ProfileInjective | water.py:50-54 | Two presets have equal parameter bundles exactly when they are the same preset. |
| WeatherPresets.NextIsRougher | water.py:50-55 | Calm to Breezy and Breezy to Stormy each raise both amplitudes and both speeds, and shorten both wavelengths. |
| WeatherPresets.NextWeather | water.py:55 | The lookup succeeds exactly on the three presets and returns the next preset in the ring. |
| WeatherPresets.NextWeatherRing | water.py:55 | Looking up three times from any preset passes two other distinct presets and comes back to the start. |
| HeightField.New | water.py:64-73 | A new `Water` has 81 points (`320 // 4 + 1`). Displacement and velocity are all zero and of that length, both phases are 0, and tension, spread and damping are 160, 50 and 9. |
| HeightField.SetProfile | water.py:75-76 | `set_profile` replaces the profile and changes nothing else. |
| HeightField.SetProfileLastWins | water.py:75-76 | Of two successive profile swaps, only the second is visible. |
| HeightField.CycleWeather | water.py:188 | A right click succeeds exactly when the current profile is a preset, and then installs the next preset. Otherwise it is a `KeyError`. |
| HeightField.CycleWeatherThrice | water.py:55 | Three right clicks from a preset restore the water exactly, and each of the first two changes the profile. |
| HeightField.PointIndex | water.py:80 | `int(x / 4)` is the point whose 4-pixel cell contains x, with the cell on the zero side for negative x. |
| HeightField.PointIndexInRange | water.py:80-81 | The index is within the chain exactly for -4 < x < 324, and all of (-4, 4) maps to point 0. |
| HeightField.Disturb | water.py:79-82 | An in-range hit lowers that point's velocity by exactly the magnitude. Every other velocity, the displacements, the phases and the profile are unchanged. An out-of-range hit changes nothing. |
| HeightField.DisturbAdds | water.py:79-82 | Two hits at the same x add their magnitudes, and a hit of magnitude zero changes nothing. |
| HeightField.DisturbCommutesWithSetProfile | water.py:75-82 | Disturbing and swapping the weather can be done in either order. |
| Swell.Targets | water.py:88-94 | There is one swell target per point, each the sum of the two sine components at that point's position. |
| HeightField.PointStep | water.py:96-103 | One loop iteration gives point `i` its new velocity (force, then damping) and moves its displacement by the new velocity. All other points are untouched. |
| HeightField.RelaxFrom | water.py:95-103 | Iterations `i..` of the loop keep both arrays' lengths and never touch points before `i`. |
| HeightField.PointForceLeft | water.py:96-100 | The force on point `i` reads only one displacement that earlier iterations may have changed: its left neighbour's. |
| HeightField.RelaxFromHead | water.py:96-103 | The first iteration of a run from point `i` fixes point `i` for good. Its new state is the in-place rule applied to the chain as it was before the run. |
| HeightField.RelaxFromInPlace | water.py:95-103 | Each point's new state is computed from its left neighbour's new displacement and its own and right neighbour's old displacements. |
| HeightField.UpdatedInPlaceFromSuffix | water.py:96-100 | A point's update depends only on the old values from that point rightwards. |
| HeightField.RelaxFromStill | water.py:95-103 | With no elapsed time and no damping, the loop leaves the chain unchanged. |
| HeightField.Update | water.py:85-103 | `update` advances `ph1` by `speed1*dt` and `ph2` by `speed2*dt`. It keeps the point count and both array lengths, and changes nothing but the arrays and the phases. |
| HeightField.UpdateInPlace | water.py:85-103 | Over the whole chain, `update` is the in-place per-point rule, with targets at the new phases and damping factor `exp(-damp*dt)`. |
| HeightField.UpdateZeroStep | water.py:85-103 | A zero time step leaves the water unchanged, provided `exp(0) = 1`. |
| HeightField.ImpulseSpreadsRightOnly | water.py:95-103 | With every swell target at 0 (the force loop alone, without the swell), one step after an impulse on a flat, still chain leaves every point left of the hit at rest, while the hit point and its right neighbour both dip. |
| HeightField.StillLeftOfImpulse | water.py:95-103 | With every swell target at 0, points to the left of the only moving point feel no force and stay at rest. |
| HeightField.AgreeLeftOf | water.py:95-103 | For any swell targets, two in-place passes over chains that differ only in velocities at or right of point `k` agree on every point left of `k`. |
| HeightField.DisturbInvisibleLeft | water.py:79-103 | Under any weather, an `update` after `disturb(x, m)` leaves every point left of the hit exactly as an `update` without the `disturb` would. The swell still moves those points, but the same way in both cases. |
| HeightField.HitPointDips | water.py:101-103 | The struck point, with no force on it yet, moves down. |
| HeightField.RightNeighbourDips | water.py:98-103 | The right neighbour of a point that has just dipped, when it starts at rest on a zero target with a flat point to its right, is pulled down in the same iteration. |
| HeightField.AdvanceAdds | water.py:86-87 | Advancing a phase by `speed*a` and then by `speed*b` is one advance by `speed*(a + b)`. |
| HeightField.PhasesAccumulate | water.py:86-87 | Two updates of `a` and `b` advance the phases as one update of `a + b`. |
| Splash.Spawn | water.py:132-141 | A new particle starts at the given point with velocity `speed*(cos, sin)` of its angle, gravity 120 and life 1.2. |
| Splash.Step | water.py:143-149 | Gravity raises `vel.y` by exactly `gravity*dt` before the position moves, and life falls by exactly dt. The particle is removed exactly when its life reaches ≤ 0. |
| Splash.FlightBookkeeping | water.py:143-149 | Over any run of non-negative frames a particle is alive exactly while its life exceeds the elapsed time. Meanwhile its life has dropped by that time, its `vel.y` has risen by gravity times it, and `vel.x` is unchanged. |
| Splash.FreshParticleExpires | water.py:141-149 | A new particle is gone once 1.2 seconds of frames have passed. |
| Splash.FreshParticleSurvives | water.py:141-149 | A new particle is still alive while less than 1.2 seconds of frames have passed. |
| Splash.Survivors | water.py:143-149 | The positions of the particles that survive a step, in increasing order. Every survivor's position appears, and no other. |
| Splash.Tick | water.py:143-149 | A group update holds one stepped particle per survivor, in the survivors' order, and nothing else. |
| Splash.TickMembers | water.py:143-149 | A particle is in the updated group exactly when it is the step of some surviving particle. |
| Splash.TickKeepsEqualParticles | water.py:143-149 | Two equal surviving particles remain two entries: the group holds sprites, not distinct values. |
| Splash.TickKeepsLifeBounded | water.py:141-149 | A group update with dt ≥ 0 keeps every particle's life in (0, 1.2]. |
| Splash.LongFrameClearsGroup | water.py:141-149 | A frame of 1.2 seconds or more removes every particle. |
| Splash.NewManager | water.py:153-155 | A new manager holds the water and no particles. |
| Splash.PyIndex | water.py:159 | Python list indexing succeeds exactly for `-len <= i < len`, and counts negative indices from the end. |
| Splash.Burst | water.py:160-161 | A burst is exactly 28 particles from the same point, one per random draw. |
| Splash.SplashAt | water.py:157-161 | `splash` succeeds exactly when `int(x/4)` is in [-81, 81). It then disturbs the water once and appends exactly 28 particles, keeping the old ones. The new particles start 2 pixels above the surface at the looked-up index. |
| Splash.SplashFailureLeavesWaterUnchanged | water.py:157-159 | When `splash` raises, the `disturb` it performed changed nothing. |
| Splash.SplashPastRightEdgeFails | water.py:157-159 | At x = 324 `disturb` ignores the hit, yet the surface lookup raises `IndexError`. |
| Splash.SplashLeftOfEdgeReadsFarEnd | water.py:157-159 | At x = -4 `disturb` ignores the hit, and the particles start at the height of the rightmost point. |
| Splash.SurfaceUnder | water.py:159 | The bounds-checked lookup reads the point `disturb` hits, or the still-water level off the chain. |
| Splash.SplashGuarded | water.py:157-161 | The bounds-checked splash always disturbs once and appends exactly 28 particles from 2 pixels above the surface. |
| Splash.SplashGuardedAgrees | water.py:157-161 | Wherever `disturb` reaches the chain, the checked and the as-written splash give the same result. |
| Splash.SplashKeepsLifeBounded | water.py:157-161 | A splash keeps every particle's life in (0, 1.2]. |
| Gradient.Lerp | main2.py:7-8 | `lerp` returns exactly three components, each the truncated mix of the corresponding inputs. |
| Gradient.LerpEnds | main2.py:8 | For integer colours, `lerp(a, b, 0)` is `a` and `lerp(a, b, 1)` is `b`. |
| Gradient.LerpSame | main2.py:8 | `lerp(a, a, t)` is `a` for every t. |
| Gradient.MixBetween | main2.py:8 | For 0 ≤ t ≤ 1 one truncated component lies between its two endpoints. |
| Gradient.LerpBetween | main2.py:8 | For 0 ≤ t ≤ 1 every component of `lerp(a, b, t)` lies between `a[i]` and `b[i]` inclusive, even after truncation. |
| Gradient.Init | main2.py:12-16 | A new `Water` has phase 0 and three 3-component colours. |
| Gradient.Update | main2.py:18-19 | `update(dt)` adds exactly `0.8*dt` to the phase and changes no colour. |
| Gradient.UpdateAdditive | main2.py:18-19 | Two updates add their time steps, and a zero step changes nothing. |
| Gradient.UpdateAllShift | main2.py:18-19 | A run of updates moves the phase by 0.8 times the total elapsed time and changes nothing else. |
| Gradient.UpdatesTrackTime | main2.py:12-19 | From a new `Water`, the phase always equals 0.8 times the elapsed time. |
| Gradient.StripParamRange | main2.py:23-25 | Every strip's gradient parameter `y / 90` is in [0, 1), and the top strip's is 0. |
| Gradient.StripColour | main2.py:25 | Every strip's colour has three components. |
| Gradient.StripColours | main2.py:23-25 | The top strip is exactly `col_body`, and every strip's colour lies componentwise between `col_body` and `col_deep`. |
| Gradient.StripShiftBounded | main2.py:24 | While the sine is in [-1, 1], no strip shifts sideways by more than 4 pixels. |

## Left out

- Rendering: both `draw` methods, `pygame.gfxdraw`, `aalines`, `pygame.Color.lerp` and surface fills. These are output-only library calls. Only main2.py's per-strip colour parameter and shift are modelled.
- The main loops, event polling, clock and window setup in all three files. They are I/O and frame pacing. The right-click weather cycle (`HeightField.CycleWeather`) and the per-frame group update (`Splash.Tick`) are modelled as functions.
- `math.sin`, `math.cos` and `math.exp`. They are parameters, so nothing is claimed about their values. Floating-point rounding is not modelled: all arithmetic is on exact reals.
- The random launch angle and speed of a particle. They are inputs (`Splash.Spray`) and their ranges are not used.
- The integer `Rect` that holds a particle's position. Positions are exact reals.
- `int()` of an infinite or NaN float, which raises in Python. The reals of the model have no such values.
- HeightField.Update: requires both wavelengths to be non-zero. The source would divide by zero otherwise; every preset has positive wavelengths.
- Sand.Update: grain count and 0/1 guarantees are stated for 0/1 boards, the only boards main.py creates. The shape and the at-most-one-step movement are stated for every board.
- The identity semantics of `NEXT_WEATHER` keys. A `Weather` built with the same numbers as a preset would be a `KeyError` in Python, but the model finds it. Only the three presets are ever installed.
- The `Water` that `SplashManager` shares with the main loop (water.py:175-176, 188, 190). In the source, `splash`'s `disturb` changes that one shared object. The model's `SplashManager` holds its own `Water` value, and `Splash.SplashAt` returns the disturbed water in its result for the caller to pass on.
- The default magnitudes (30 for `disturb`, 38 for `splash`). Every member takes the magnitude as an argument.

## Findings

| source | as written | input that shows it | evidently intended | confidence | as-written member | corrected member |
|---|---|---|---|---|---|---|
| water.py:159 | `splash` indexes `y_disp[int(x / 4)]` without the bounds test that `disturb` applies one line earlier | x = 324: `disturb` ignores the hit, then the lookup raises `IndexError`. x = -4: the lookup wraps to the rightmost point | read the surface only where `disturb` reaches the chain, and use the still-water line elsewhere; `splash` never raises | low (latent: the demo's click mapping keeps 0 ≤ x < 320); not executed | Splash.SplashAt, shown by Splash.SplashPastRightEdgeFails and Splash.SplashLeftOfEdgeReadsFarEnd | Splash.SplashGuarded, with Splash.SplashGuardedAgrees and Splash.SplashKeepsLifeBounded |
