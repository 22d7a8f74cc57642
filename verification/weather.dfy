/**
 * The three sea-state presets of water.py and the ring `NEXT_WEATHER` that a
 * right click walks: Calm, Breezy, Stormy, Calm, ...
 */
module WeatherPresets {
  import opened Results

  /** An opaque RGB colour (`pygame.Color`). */
  datatype Rgb = Rgb(r: int, g: int, b: int)

  /** A `Weather` object: two swell components and three colours. */
  datatype Weather = Weather(
    amp1: real, wave1: real, speed1: real,
    amp2: real, wave2: real, speed2: real,
    colTop: Rgb, colMid: Rgb, colDeep: Rgb)

  /** The names of the presets `CALM`, `BREEZY` and `STORMY`. */
  datatype Preset = Calm | Breezy | Stormy

  /** The parameter bundle of each preset. */
  function Profile(p: Preset): (w: Weather)
    ensures w.amp1 > 0.0 && w.amp2 > 0.0
    ensures w.wave1 > 0.0 && w.wave2 > 0.0
    ensures w.speed1 > 0.0 && w.speed2 > 0.0
  {
    match p
    case Calm => Weather(2.0, 90.0, 0.10, 1.0, 45.0, 0.16,
                         Rgb(84, 175, 245), Rgb(25, 117, 202), Rgb(8, 63, 158))
    case Breezy => Weather(4.0, 60.0, 0.25, 2.0, 30.0, 0.31,
                           Rgb(76, 165, 225), Rgb(20, 102, 188), Rgb(6, 52, 152))
    case Stormy => Weather(7.0, 40.0, 0.45, 3.0, 22.0, 0.60,
                           Rgb(160, 200, 235), Rgb(35, 80, 150), Rgb(10, 35, 110))
  }

  /** `NEXT_WEATHER` on preset names. */
  function Next(p: Preset): (q: Preset)
    ensures q != p
  {
    match p
    case Calm => Breezy
    case Breezy => Stormy
    case Stormy => Calm
  }

  /** `NEXT_WEATHER` closes after three steps, and two steps never return to the start. */
  lemma NextIsThreeCycle(p: Preset)
    ensures Next(Next(Next(p))) == p
    ensures Next(Next(p)) != p
  {
  }

  /** The three presets are pairwise different bundles, so each is its own dictionary key. */
  lemma ProfileInjective(p: Preset, q: Preset)
    ensures Profile(p) == Profile(q) <==> p == q
  {
  }

  /** Away from Stormy, one step of the ring makes the swell larger, shorter and faster. */
  lemma NextIsRougher(p: Preset)
    requires p != Stormy
    ensures var w, w' := Profile(p), Profile(Next(p));
      && w.amp1 < w'.amp1 && w.amp2 < w'.amp2
      && w.wave1 > w'.wave1 && w.wave2 > w'.wave2
      && w.speed1 < w'.speed1 && w.speed2 < w'.speed2
  {
  }

  /** `NEXT_WEATHER[w]`: the dictionary lookup, with a miss (a `KeyError`) as `None`. */
  function NextWeather(w: Weather): (r: Option<Weather>)
    ensures r.Some? <==> exists p :: Profile(p) == w
    ensures forall p :: Profile(p) == w ==> r == Some(Profile(Next(p)))
  {
    if w == Profile(Calm) then Some(Profile(Breezy))
    else if w == Profile(Breezy) then Some(Profile(Stormy))
    else if w == Profile(Stormy) then Some(Profile(Calm))
    else None
  }

  /** Three lookups from any preset come back to it, passing through two other presets. */
  lemma NextWeatherRing(p: Preset)
    ensures var w1 := NextWeather(Profile(p));
      && w1.Some? && w1.value != Profile(p)
      && var w2 := NextWeather(w1.value);
      && w2.Some? && w2.value != Profile(p) && w2.value != w1.value
      && NextWeather(w2.value) == Some(Profile(p))
  {
    NextIsThreeCycle(p);
    ProfileInjective(p, Next(p));
    ProfileInjective(p, Next(Next(p)));
    ProfileInjective(Next(p), Next(Next(p)));
  }
}
