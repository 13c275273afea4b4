/**
 The cached, smoothed temperature of one sensor: when a read is served from the cache or from
 emulation, when it is refreshed, and how a refreshed value is blended with the stored one.
 */
module ThermalSample {
  import opened ThermalTypes

  /** A boot clock time point in milliseconds; Never is time_point::min(). */
  datatype Stamp = Never | At(ms: int)

  /** ThermalSample of the source: the cached temperature and when it was stored. */
  datatype Sample = Sample(temp: Float, stamp: Stamp)

  datatype Smoothing = Smoothing(timeResolution: int, passiveDelay: int, stepRatio: Float)

  /** What composing a sensor from its file or its linked sensors gives. */
  datatype Raw = RawError | RawCollecting | Composed(temp: Float)

  /** The severity of an emulation, -1 when only a temperature is emulated. */
  type EmulSeverity = s: int | -1 <= s <= 6

  datatype Emulation = NotEmulated | Emulated(temp: Float, severity: EmulSeverity)

  /** What readThermalSensor reports. */
  datatype Reading = Failed | Collecting | Read(temp: Float)

  /** kTranTimeoutParam. */
  const TRAN_TIMEOUT := 2

  /** The configuration parser's range check on the step ratio. */
  predicate ValidSmoothing(cfg: Smoothing) {
    cfg.stepRatio.Num? ==> 0.0 <= cfg.stepRatio.value <= 1.0
  }

  predicate ServedFromCache(cfg: Smoothing, s: Sample, now: int, forceNoCache: bool) {
    && !forceNoCache && s.stamp.At?
    && now - s.stamp.ms < cfg.timeResolution && s.temp.Num?
  }

  predicate InFilterWindow(cfg: Smoothing, s: Sample, now: int) {
    cfg.stepRatio.Num? && s.temp.Num? && s.stamp.At? && now - s.stamp.ms < cfg.passiveDelay * TRAN_TIMEOUT
  }

  function Mix(ratio: real, raw: Float, stored: real): Float {
    if raw.NaN? then NaN else Num(ratio * raw.value + (1.0 - ratio) * stored)
  }

  function Blend(cfg: Smoothing, s: Sample, now: int, raw: Float): Float {
    if InFilterWindow(cfg, s, now) then Mix(cfg.stepRatio.value, raw, s.temp.value) else raw
  }

  /** One call of readThermalSensor on the sample of its sensor. */
  function ReadSample(cfg: Smoothing, s: Sample, emul: Emulation, now: int, forceNoCache: bool,
                      raw: Raw): (r: (Sample, Reading)) {
    if emul.Emulated? then (s, Read(emul.temp))
    else if ServedFromCache(cfg, s, now, forceNoCache) then (s, Read(s.temp))
    else match raw
      case RawError => (s, Failed)
      case RawCollecting => (s, Collecting)
      case Composed(t) => var temp := Blend(cfg, s, now, t); (Sample(temp, At(now)), Read(temp))
  }

  /** A temperature carried by a uevent replaces the sample; a uevent without one does not. */
  function StoreUevent(s: Sample, now: int, temp: Float): Sample {
    if temp.Num? then Sample(temp, At(now)) else s
  }

  // ----- Runs -----

  datatype Event =
    | Uevent(now: int, temp: Float)
    | ReadCall(now: int, forceNoCache: bool, raw: Raw, emul: Emulation)

  function Step(cfg: Smoothing, s: Sample, e: Event): Sample {
    match e
    case Uevent(now, temp) => StoreUevent(s, now, temp)
    case ReadCall(now, force, raw, emul) => ReadSample(cfg, s, emul, now, force, raw).0
  }

  function After(cfg: Smoothing, s: Sample, events: seq<Event>): Sample
    decreases |events|
  {
    if events == [] then s else After(cfg, Step(cfg, s, events[0]), events[1..])
  }

  predicate Within(t: Float, lo: real, hi: real) {
    t.Num? ==> lo <= t.value <= hi
  }

  /** Every temperature an event brings in lies in the range. */
  predicate FeedsWithin(e: Event, lo: real, hi: real) {
    match e
    case Uevent(_, temp) => Within(temp, lo, hi)
    case ReadCall(_, _, raw, _) => raw.Composed? ==> Within(raw.temp, lo, hi)
  }

  lemma ProductNonNegative(x: real, y: real)
    requires x >= 0.0 && y >= 0.0
    ensures x * y >= 0.0
  {
  }

  lemma BlendWithin(s: real, a: real, b: real, lo: real, hi: real)
    requires 0.0 <= s <= 1.0 && lo <= a <= hi && lo <= b <= hi
    ensures lo <= s * a + (1.0 - s) * b <= hi
  {
    assert s * a + (1.0 - s) * b - lo == s * (a - lo) + (1.0 - s) * (b - lo);
    assert hi - (s * a + (1.0 - s) * b) == s * (hi - a) + (1.0 - s) * (hi - b);
    ProductNonNegative(s, a - lo);
    ProductNonNegative(1.0 - s, b - lo);
    ProductNonNegative(s, hi - a);
    ProductNonNegative(1.0 - s, hi - b);
  }

  /** Over any run the stored temperature stays within the range of what was fed in: smoothing never overshoots. */
  lemma {:induction false} StoredStaysInRange(cfg: Smoothing, s: Sample, events: seq<Event>, lo: real, hi: real)
    requires ValidSmoothing(cfg) && Within(s.temp, lo, hi)
    requires forall e | e in events :: FeedsWithin(e, lo, hi)
    ensures Within(After(cfg, s, events).temp, lo, hi)
    decreases |events|
  {
    if events != [] {
      var e := events[0];
      assert e in events && FeedsWithin(e, lo, hi);
      if e.ReadCall? && e.raw.Composed? && e.raw.temp.Num? && InFilterWindow(cfg, s, e.now) {
        BlendWithin(cfg.stepRatio.value, e.raw.temp.value, s.temp.value, lo, hi);
      }
      StoredStaysInRange(cfg, Step(cfg, s, e), events[1..], lo, hi);
    }
  }

  /** An event that refreshes the sample rather than being served, emulated or failing. */
  predicate Refreshes(cfg: Smoothing, s: Sample, e: Event) {
    e.ReadCall? && !e.emul.Emulated? && !ServedFromCache(cfg, s, e.now, e.forceNoCache) && e.raw.Composed?
  }

  /** A run of read calls whose refreshes all see the same raw value c inside the filter window.
      Reads that fail, or are served from the cache or from emulation, may be mixed in anywhere. */
  predicate Constant(cfg: Smoothing, s: Sample, events: seq<Event>, c: real)
    decreases |events|
  {
    events != [] ==>
      var e := events[0];
      && e.ReadCall?
      && (Refreshes(cfg, s, e) ==> e.raw.temp == Num(c) && InFilterWindow(cfg, s, e.now))
      && Constant(cfg, Step(cfg, s, e), events[1..], c)
  }

  function RefreshCount(cfg: Smoothing, s: Sample, events: seq<Event>): nat
    decreases |events|
  {
    if events == [] then 0
    else (if Refreshes(cfg, s, events[0]) then 1 else 0) + RefreshCount(cfg, Step(cfg, s, events[0]), events[1..])
  }

  function Power(base: real, n: nat): real {
    if n == 0 then 1.0 else Power(base, n - 1) * base
  }

  lemma {:induction false} PowerPeel(base: real, n: nat)
    ensures Power(base, n + 1) == base * Power(base, n)
  {
    if n > 0 { PowerPeel(base, n - 1); }
  }

  lemma Associate(a: real, b: real, c: real)
    ensures a * (b * c) == (b * a) * c
  {
  }

  /** Under a constant raw input the error shrinks by exactly (1 - step ratio) per refresh, and by nothing else. */
  lemma {:induction false} ErrorIsGeometric(cfg: Smoothing, s: Sample, events: seq<Event>, c: real)
    requires cfg.stepRatio.Num? && s.temp.Num?
    requires Constant(cfg, s, events, c)
    ensures After(cfg, s, events).temp.Num?
    ensures After(cfg, s, events).temp.value - c
         == Power(1.0 - cfg.stepRatio.value, RefreshCount(cfg, s, events)) * (s.temp.value - c)
    decreases |events|
  {
    if events != [] {
      var e, k := events[0], 1.0 - cfg.stepRatio.value;
      var next := Step(cfg, s, e);
      var n := RefreshCount(cfg, next, events[1..]);
      if Refreshes(cfg, s, e) {
        assert next.temp.value - c == k * (s.temp.value - c);
        ErrorIsGeometric(cfg, next, events[1..], c);
        Associate(Power(k, n), k, s.temp.value - c);
        PowerPeel(k, n);
      } else {
        assert next == s;
        ErrorIsGeometric(cfg, next, events[1..], c);
      }
    }
  }

  /** What readers see: outside emulation a successful read returns exactly what is stored afterwards. */
  lemma ReadReturnsStored(cfg: Smoothing, s: Sample, now: int, force: bool, raw: Raw)
    ensures var (after, reading) := ReadSample(cfg, s, NotEmulated, now, force, raw);
            && (reading.Read? ==> reading.temp == after.temp)
            && (!reading.Read? ==> after == s)
  {
  }

  // ----- One read, said without the functions it is made of -----

  /** A read under emulation returns the emulated temperature and touches nothing. */
  lemma EmulatedRead(cfg: Smoothing, s: Sample, temp: Float, severity: EmulSeverity, now: int, force: bool, raw: Raw)
    ensures ReadSample(cfg, s, Emulated(temp, severity), now, force, raw) == (s, Read(temp))
  {
  }

  /** Within the time resolution an unforced read repeats the stored number and needs no input; any other read takes
      its input. */
  lemma CachedRead(cfg: Smoothing, s: Sample, now: int, force: bool, raw: Raw)
    ensures var (after, reading) := ReadSample(cfg, s, NotEmulated, now, force, raw);
      if !force && s.stamp.At? && s.temp.Num? && now - s.stamp.ms < cfg.timeResolution
      then after == s && reading == Read(s.temp)
      else match raw
        case RawError => after == s && reading == Failed
        case RawCollecting => after == s && reading == Collecting
        case Composed(_) => reading == Read(after.temp) && after.stamp == At(now)
  {
  }

  /** A new input is mixed with the stored number by the step ratio while that is younger than twice the passive delay,
      and stored as it is otherwise. */
  lemma SmoothedRead(cfg: Smoothing, s: Sample, now: int, t: real)
    ensures var after := ReadSample(cfg, s, NotEmulated, now, true, Composed(Num(t))).0;
      after == Sample(Num(if cfg.stepRatio.Num? && s.temp.Num? && s.stamp.At? && now - s.stamp.ms < 2 * cfg.passiveDelay
                          then cfg.stepRatio.value * t + (1.0 - cfg.stepRatio.value) * s.temp.value else t), At(now))
  {
    hide Mix;
    if InFilterWindow(cfg, s, now) { MixIs(cfg.stepRatio.value, t, s.temp.value); }
  }

  lemma MixIs(ratio: real, t: real, stored: real)
    ensures Mix(ratio, Num(t), stored) == Num(ratio * t + (1.0 - ratio) * stored)
  {
  }

  /** A uevent's temperature is what reads return for the time resolution; one without a number changes nothing. */
  lemma UeventRead(cfg: Smoothing, s: Sample, now: int, temp: Float, later: int, raw: Raw)
    requires later - now < cfg.timeResolution
    ensures var stored := StoreUevent(s, now, temp);
      if temp.Num? then ReadSample(cfg, stored, NotEmulated, later, false, raw) == (Sample(temp, At(now)), Read(temp))
      else stored == s
  {
  }
}
