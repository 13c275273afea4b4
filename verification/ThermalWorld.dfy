/**
 The sensor table of the thermal helper as a value: what one temperature read, one watcher
 visit and one watcher round do to it. The class in ThermalHelper is proved against these.
 */
module ThermalWorld {
  import opened ThermalTypes
  import opened ThermalSeverity
  import opened ThermalSample
  import opened ThermalFormula

  /** One input of a virtual sensor: another sensor, or a power rail, a constant or a cooling device. */
  datatype Source = Source(name: string, isSensor: bool)

  /** virtual_sensor_info: a null pointer for a physical sensor; an empty name stands for no backup sensor. */
  datatype Composition =
    | Physical
    | Virtual(linked: seq<Source>, coefficients: seq<Source>, formula: Formula, offset: real, backup: string,
              triggers: seq<string>)

  datatype SensorInfo = SensorInfo(
    hot: Thresholds, cold: Thresholds, hotHyst: Hysteresis, coldHyst: Hysteresis,
    multiplier: real, pollingDelay: int, smoothing: Smoothing,
    isWatch: bool, composition: Composition, references: seq<string>)
  {
    function PassiveDelay(): int { smoothing.passiveDelay }

    function Scale(temp: real): real { temp * multiplier }
  }

  /** OverrideStatus with its emulated temperature. */
  datatype Override = Override(emul: Emulation, maxThrottling: bool, pendingUpdate: bool)

  datatype SensorStatus = SensorStatus(
    severity: Severity, prevHot: Severity, prevCold: Severity, lastUpdate: Stamp,
    cached: Sample, pendingNotification: bool, override: Override)

  /** Severity history: a watched read with its value, the severity of the references and an emulated severity
      (-1: none), the stored severity it changed, and a notification the watcher queued. */
  datatype Note =
    | Seen(name: string, value: real, reference: Severity, emulated: EmulSeverity)
    | Changed(name: string, to: Severity)
    | Pushed(name: string, severity: Severity)

  type Infos = map<string, SensorInfo>
  type Statuses = map<string, SensorStatus>

  datatype World = World(statuses: Statuses, log: seq<Note>)

  /** What readTemperature reports; the severity of an unwatched sensor is left at NONE. */
  datatype Outcome = ReadFailed | UnderCollecting | Okay(value: real, severity: Severity)

  /** Ranks of the sensors: refs falls along severity references, links from a virtual sensor to its inputs, and
      top bounds links. */
  datatype Ranks = Ranks(refs: map<string, nat>, links: map<string, nat>, top: nat)

  predicate TriggersExist(infos: Infos, name: string)
    requires name in infos
  {
    infos[name].composition.Virtual? ==> forall t | t in infos[name].composition.triggers :: t in infos
  }

  ghost predicate ReferencesBelow(infos: Infos, ranks: Ranks, name: string)
    requires name in infos && infos.Keys <= ranks.refs.Keys
  {
    forall r | r in infos[name].references :: r in infos && ranks.refs[r] < ranks.refs[name]
  }

  /** The name can be an input: it is a sensor of a lower rank, or no sensor at all. */
  ghost predicate Below(infos: Infos, ranks: Ranks, name: string, bound: nat)
    requires infos.Keys <= ranks.links.Keys
  {
    name in infos ==> ranks.links[name] < bound
  }

  ghost predicate SourcesBelow(infos: Infos, ranks: Ranks, sources: seq<Source>, bound: nat)
    requires infos.Keys <= ranks.links.Keys
  {
    forall s | s in sources :: Below(infos, ranks, s.name, bound)
  }

  ghost predicate LinksBelow(infos: Infos, ranks: Ranks, name: string)
    requires name in infos && infos.Keys <= ranks.links.Keys
  {
    infos[name].composition.Virtual? ==>
      var c, bound := infos[name].composition, ranks.links[name];
      && |c.linked| == |c.coefficients|
      && SourcesBelow(infos, ranks, c.linked, bound) && SourcesBelow(infos, ranks, c.coefficients, bound)
      && Below(infos, ranks, c.backup, bound)
  }

  /** What the constructor sets up and relies on: one status per sensor, references and triggers that
      exist, references and inputs that do not lead back, and no zero multiplier. */
  ghost predicate ValidInfos(infos: Infos, ranks: Ranks) {
    && infos.Keys <= ranks.refs.Keys && infos.Keys <= ranks.links.Keys
    && forall n | n in infos ::
         && infos[n].multiplier != 0.0 && ranks.links[n] <= ranks.top
         && ReferencesBelow(infos, ranks, n)
         && LinksBelow(infos, ranks, n)
         && TriggersExist(infos, n)
  }

  predicate ValidStatuses(infos: Infos, statuses: Statuses) {
    statuses.Keys == infos.Keys
  }

  /** The state the constructor leaves: nothing read, nothing pending. */
  const FRESH := SensorStatus(NONE, NONE, NONE, Never, Sample(NaN, Never), false, Override(NotEmulated, false, false))

  // ----- What a value does to a status -----

  function EmulatedSeverity(st: SensorStatus): EmulSeverity {
    if st.override.emul.Emulated? then st.override.emul.severity else -1
  }

  /** The severity a watched sensor takes from a value, its references and an emulated severity. */
  function Classify(info: SensorInfo, st: SensorStatus, reference: Severity, value: real): Severity
  {
    var hot := NextHot(info.hot, info.hotHyst, st.prevHot, value);
    var cold := NextCold(info.cold, info.coldHyst, st.prevCold, value);
    if st.override.emul.Emulated? && st.override.emul.severity >= 0 then st.override.emul.severity
    else MaxSeverity(if hot > cold then hot else cold, reference)
  }

  /** The status update of readTemperature, under its one lock. */
  function Update(info: SensorInfo, st: SensorStatus, reference: Severity, value: real): (st': SensorStatus)
    ensures st'.override == st.override && st'.lastUpdate == st.lastUpdate && st'.cached == st.cached
  {
    var severity := Classify(info, st, reference, value);
    st.(prevHot := NextHot(info.hot, info.hotHyst, st.prevHot, value),
        prevCold := NextCold(info.cold, info.coldHyst, st.prevCold, value),
        severity := severity,
        pendingNotification := st.pendingNotification || severity != st.severity)
  }

  /** Every level is reached by the severity exactly when the hot side, the cold side or a reference reaches it;
      an emulated severity stands for itself. */
  predicate Covers(severity: Severity, hot: Severity, cold: Severity, reference: Severity, emulated: EmulSeverity) {
    if emulated >= 0 then severity == emulated
    else forall i | 1 <= i <= 6 ::
           AtLeast(severity, i) <==> AtLeast(hot, i) || AtLeast(cold, i) || AtLeast(reference, i)
  }

  lemma UpdateCovers(info: SensorInfo, st: SensorStatus, reference: Severity, value: real)
    ensures var st' := Update(info, st, reference, value);
      && Covers(st'.severity, st'.prevHot, st'.prevCold, reference, EmulatedSeverity(st))
      && st'.prevHot == NextHot(info.hot, info.hotHyst, st.prevHot, value)
      && st'.prevCold == NextCold(info.cold, info.coldHyst, st.prevCold, value)
  {
    hide NextHot, NextCold;
  }

  function Apply(infos: Infos, w: World, name: string, reference: Severity, value: real): (w': World)
    requires ValidStatuses(infos, w.statuses) && name in infos
    ensures ValidStatuses(infos, w'.statuses)
  {
    var st := Update(infos[name], w.statuses[name], reference, value);
    var log := w.log + [Seen(name, value, reference, EmulatedSeverity(w.statuses[name]))];
    World(w.statuses[name := st],
          if st.severity != w.statuses[name].severity then log + [Changed(name, st.severity)] else log)
  }

  // ----- Composing a sensor -----

  /** An estimator's answer; a low confidence falls back on the backup sensor. */
  datatype Estimate = Answer(raw: Raw) | UseBackup

  /** Everything outside the sensor table at one moment: sensor files, power rails, constants and cooling devices,
      estimators, predictions, and what an unset variable holds. */
  datatype Env = Env(
    file: string -> Raw, other: string -> Raw, estimate: (string, seq<real>) -> Estimate, predict: string -> Raw,
    unset: string -> Float)

  /** What reading a list of inputs gives: all their values, or the first that fails or is not there yet. */
  datatype Inputs = NoInput | LateInput | Values(values: seq<real>)

  lemma LinksRanked(infos: Infos, ranks: Ranks, name: string)
    requires ValidInfos(infos, ranks)
    ensures infos.Keys <= ranks.links.Keys && (name in infos ==> LinksBelow(infos, ranks, name))
  {
  }

  /** Only cached samples change, and only of sensors below the bound. */
  ghost predicate Refreshed(ranks: Ranks, bound: nat, w: World, w': World) {
    && w'.log == w.log && w'.statuses.Keys == w.statuses.Keys && w.statuses.Keys <= ranks.links.Keys
    && forall n | n in w.statuses ::
         && w'.statuses[n] == w.statuses[n].(cached := w'.statuses[n].cached)
         && (ranks.links[n] >= bound ==> w'.statuses[n] == w.statuses[n])
  }

  /** readThermalSensor: emulated, served from the cache, or composed, smoothed and stored. */
  ghost function ReadSensor(infos: Infos, ranks: Ranks, w: World, env: Env, now: int, name: string, force: bool)
    : (r: (World, Reading))
    requires ValidInfos(infos, ranks) && ValidStatuses(infos, w.statuses) && name in infos
    ensures ValidStatuses(infos, r.0.statuses) && Refreshed(ranks, ranks.links[name] + 1, w, r.0)
    decreases ranks.links[name], 3, 0
  {
    var st := w.statuses[name];
    if st.override.emul.Emulated? then (w, Read(st.override.emul.temp))
    else if ServedFromCache(infos[name].smoothing, st.cached, now, force) then (w, Read(st.cached.temp))
    else
      var (w1, raw) := Compose(infos, ranks, w, env, now, name, force);
      Store(infos, w1, now, name, force, raw)
  }

  /** The end of readThermalSensor: smooth and store what was composed. */
  function Store(infos: Infos, w: World, now: int, name: string, force: bool, raw: Raw): (r: (World, Reading))
    requires ValidStatuses(infos, w.statuses) && name in infos
    ensures ValidStatuses(infos, r.0.statuses)
  {
    var st := w.statuses[name];
    var (sample, reading) := ReadSample(infos[name].smoothing, st.cached, NotEmulated, now, force, raw);
    (w.(statuses := w.statuses[name := st.(cached := sample)]), reading)
  }

  /** readDataByType for a sensor: only an error is an error. */
  ghost function ReadData(infos: Infos, ranks: Ranks, w: World, env: Env, now: int, name: string, force: bool,
                          bound: nat)
    : (r: (World, Raw))
    requires ValidInfos(infos, ranks) && ValidStatuses(infos, w.statuses) && Below(infos, ranks, name, bound)
    ensures ValidStatuses(infos, r.0.statuses) && Refreshed(ranks, bound, w, r.0)
    decreases bound, 0, 0
  {
    if name !in infos then (w, RawError) else
    var (w1, reading) := ReadSensor(infos, ranks, w, env, now, name, force);
    (w1, match reading case Failed => RawError case Collecting => RawCollecting case Read(t) => Composed(t))
  }

  /** readDataByType. */
  ghost function ReadSource(infos: Infos, ranks: Ranks, w: World, env: Env, now: int, source: Source, force: bool,
                            bound: nat)
    : (r: (World, Raw))
    requires ValidInfos(infos, ranks) && ValidStatuses(infos, w.statuses) && Below(infos, ranks, source.name, bound)
    ensures ValidStatuses(infos, r.0.statuses) && Refreshed(ranks, bound, w, r.0)
    decreases bound, 0, 1
  {
    if source.isSensor then ReadData(infos, ranks, w, env, now, source.name, force, bound)
        else (w, env.other(source.name))
  }

  /** The inputs of a virtual sensor, read one after the other. */
  ghost function ReadSources(infos: Infos, ranks: Ranks, w: World, env: Env, now: int, sources: seq<Source>,
                             force: bool, values: seq<real>, bound: nat): (r: (World, Inputs))
    requires ValidInfos(infos, ranks) && ValidStatuses(infos, w.statuses) && SourcesBelow(infos, ranks, sources, bound)
    ensures ValidStatuses(infos, r.0.statuses) && Refreshed(ranks, bound, w, r.0)
    ensures r.1.Values? ==> |r.1.values| == |values| + |sources|
    decreases bound, 1, |sources|
  {
    if sources == [] then (w, Values(values)) else
    assert sources[0] in sources;
    var (w1, raw) := ReadSource(infos, ranks, w, env, now, sources[0], force, bound);
    if raw.RawError? then (w1, NoInput)
    else if raw.RawCollecting? || raw.temp.NaN? then (w1, LateInput)
    else ReadSources(infos, ranks, w1, env, now, sources[1..], force, values + [raw.temp.value], bound)
  }

  /** What a sensor's file or its inputs amount to. */
  ghost function Compose(infos: Infos, ranks: Ranks, w: World, env: Env, now: int, name: string, force: bool)
    : (r: (World, Raw))
    requires ValidInfos(infos, ranks) && ValidStatuses(infos, w.statuses) && name in infos
    ensures ValidStatuses(infos, r.0.statuses) && Refreshed(ranks, ranks.links[name], w, r.0)
    decreases ranks.links[name], 2, 0
  {
    var c, bound := infos[name].composition, ranks.links[name];
    if c.Physical? then (w, env.file(name)) else
    assert LinksBelow(infos, ranks, name);
    var (w1, readings) := ReadSources(infos, ranks, w, env, now, c.linked, force, [], bound);
    match readings
    case NoInput => (w1, RawError)
    case LateInput => (w1, RawCollecting)
    case Values(rs) => Evaluate(infos, ranks, w1, env, now, name, force, rs)
  }

  /** The formula of a virtual sensor, applied to its linked readings. */
  ghost function Evaluate(infos: Infos, ranks: Ranks, w: World, env: Env, now: int, name: string, force: bool,
                          readings: seq<real>): (r: (World, Raw))
    requires ValidInfos(infos, ranks) && ValidStatuses(infos, w.statuses) && name in infos
    requires infos[name].composition.Virtual? && |readings| == |infos[name].composition.linked|
    ensures ValidStatuses(infos, r.0.statuses) && Refreshed(ranks, ranks.links[name], w, r.0)
    decreases ranks.links[name], 1, |infos[name].composition.coefficients| + 2
  {
    match infos[name].composition.formula
    case PreviouslyPredicted => (w, env.predict(name))
    case Estimated =>
      (match env.estimate(name, readings)
       case Answer(raw) => (w, raw)
       case UseBackup => Backup(infos, ranks, w, env, now, name, force))
    case _ => Weigh(infos, ranks, w, env, now, name, force, readings)
  }

  /** The weighted formulas: one coefficient per input. */
  ghost function Weigh(infos: Infos, ranks: Ranks, w: World, env: Env, now: int, name: string, force: bool,
                       readings: seq<real>)
    : (r: (World, Raw))
    requires ValidInfos(infos, ranks) && ValidStatuses(infos, w.statuses) && name in infos
    requires infos[name].composition.Virtual? && |readings| == |infos[name].composition.linked|
    ensures ValidStatuses(infos, r.0.statuses) && Refreshed(ranks, ranks.links[name], w, r.0)
    decreases ranks.links[name], 1, |infos[name].composition.coefficients| + 1
  {
    assert LinksBelow(infos, ranks, name);
    var c := infos[name].composition;
    var (w1, coefficients) := ReadSources(infos, ranks, w, env, now, c.coefficients, force, [], ranks.links[name]);
    match coefficients
    case NoInput => (w1, RawError)
    case LateInput => (w1, RawCollecting)
    case Values(cs) => (w1, Composed(Num(Combine(c.formula, readings, cs) + c.offset)))
  }

  /** A weighted sensor's value is its formula over the linked readings and the coefficients just read, plus the
      offset. */
  lemma WeighMeans(infos: Infos, ranks: Ranks, w: World, env: Env, now: int, name: string, force: bool,
                   readings: seq<real>)
    requires ValidInfos(infos, ranks) && ValidStatuses(infos, w.statuses) && name in infos
    requires infos[name].composition.Virtual? && |readings| == |infos[name].composition.linked|
    ensures SourcesBelow(infos, ranks, infos[name].composition.coefficients, ranks.links[name])
    ensures var c, raw := infos[name].composition, Weigh(infos, ranks, w, env, now, name, force, readings).1;
            var read := ReadSources(infos, ranks, w, env, now, c.coefficients, force, [], ranks.links[name]).1;
      match read
      case NoInput => raw == RawError
      case LateInput => raw == RawCollecting
      case Values(cs) =>
        && raw.Composed? && raw.temp.Num? && |cs| == |readings|
        && Means(c.formula, readings, cs, raw.temp.value - c.offset)
  {
    hide ReadSources, Refreshed, Combine, Means;
    LinksRanked(infos, ranks, name);
    var c := infos[name].composition;
    var read := ReadSources(infos, ranks, w, env, now, c.coefficients, force, [], ranks.links[name]).1;
    if read.Values? {
      CombineMeans(c.formula, readings, read.values);
      var sum := Combine(c.formula, readings, read.values);
      assert sum + c.offset - c.offset == sum;
    }
  }

  /** The backup sensor of an estimator; one that is still collecting leaves the variable unset. */
  ghost function Backup(infos: Infos, ranks: Ranks, w: World, env: Env, now: int, name: string, force: bool)
    : (r: (World, Raw))
    requires ValidInfos(infos, ranks) && ValidStatuses(infos, w.statuses) && name in infos
    requires infos[name].composition.Virtual?
    ensures ValidStatuses(infos, r.0.statuses) && Refreshed(ranks, ranks.links[name], w, r.0)
    decreases ranks.links[name], 1, 0
  {
    assert LinksBelow(infos, ranks, name);
    var backup := infos[name].composition.backup;
    if backup == "" then (w, RawError) else
    var (w1, raw) := ReadData(infos, ranks, w, env, now, backup, force, ranks.links[name]);
    (w1, if raw.RawCollecting? then Composed(env.unset(name)) else raw)
  }

  /** What a read does to the sensor's own sample is one step of the sample alone, with whatever its inputs compose. */
  lemma OwnSample(infos: Infos, ranks: Ranks, w: World, env: Env, now: int, name: string, force: bool)
    requires ValidInfos(infos, ranks) && ValidStatuses(infos, w.statuses) && name in infos
    ensures var st, r := w.statuses[name], ReadSensor(infos, ranks, w, env, now, name, force);
            var raw := Compose(infos, ranks, w, env, now, name, force).1;
            (r.0.statuses[name].cached, r.1)
            == ReadSample(infos[name].smoothing, st.cached, st.override.emul, now, force, raw)
  {
    hide Compose, LinksBelow, ReferencesBelow, TriggersExist, Blend;
  }

  // ----- One read -----

  /** readTemperature. */
  ghost function ReadTemp(infos: Infos, ranks: Ranks, w: World, env: Env, now: int,
                          name: string, force: bool): (r: (World, Outcome))
    requires ValidInfos(infos, ranks) && ValidStatuses(infos, w.statuses) && name in infos
    ensures ValidStatuses(infos, r.0.statuses)
    decreases ranks.refs[name], 1, 0
  {
    var (w1, reading) := ReadSensor(infos, ranks, w, env, now, name, force);
    match reading
    case Failed => (w1, ReadFailed)
    case Collecting => (w1, UnderCollecting)
    case Read(temp) =>
      if temp.NaN? then (w1, ReadFailed) else
      var (w2, reference) := ReferenceSeverity(infos, ranks, w1, env, now, infos[name].references, NONE,
                                               ranks.refs[name]);
      var value := infos[name].Scale(temp.value);
      if !infos[name].isWatch then (w2, Okay(value, NONE)) else
      var w3 := Apply(infos, w2, name, reference, value);
      (w3, Okay(value, w3.statuses[name].severity))
  }

  /** getSeverityReference: the worst severity among the references, NONE as soon as one cannot be read. */
  ghost function ReferenceSeverity(infos: Infos, ranks: Ranks, w: World, env: Env, now: int,
                                   refs: seq<string>, worst: Severity, bound: nat): (r: (World, Severity))
    requires ValidInfos(infos, ranks) && ValidStatuses(infos, w.statuses)
    requires forall n | n in refs :: n in infos && ranks.refs[n] < bound
    ensures ValidStatuses(infos, r.0.statuses)
    decreases bound, 0, |refs|
  {
    if refs == [] then (w, worst) else
    var (w1, o) := ReadTemp(infos, ranks, w, env, now, refs[0], false);
    if !o.Okay? then (w1, NONE)
    else ReferenceSeverity(infos, ranks, w1, env, now, refs[1..], MaxSeverity(worst, o.severity), bound)
  }

  // ----- One watcher round -----

  /** The sleep a round returns; Forever is milliseconds::max(). */
  datatype Sleep = Forever | Ms(ms: int)

  function Shorter(a: Sleep, b: int): Sleep {
    if a.Forever? || a.ms > b then Ms(b) else a
  }

  /** The local state of a round: table, sleep so far, queued notifications, and for the
      statements below which sensors could not be read and which delay each one used. */
  datatype Round = Round(world: World, sleep: Sleep, temps: seq<(string, Outcome)>,
                         failed: set<string>, used: map<string, int>)

  function DelayBySeverity(info: SensorInfo, st: SensorStatus): int {
    if st.severity != NONE then info.PassiveDelay() else info.pollingDelay
  }

  predicate TriggerActive(infos: Infos, statuses: Statuses, name: string)
    requires ValidStatuses(infos, statuses) && name in infos
    requires TriggersExist(infos, name)
  {
    infos[name].composition.Virtual? && exists t | t in infos[name].composition.triggers :: statuses[t].severity != NONE
  }

  function SleepBefore(infos: Infos, statuses: Statuses, name: string): int
    requires ValidStatuses(infos, statuses) && name in infos
    requires TriggersExist(infos, name)
  {
    if TriggerActive(infos, statuses, name) then infos[name].PassiveDelay()
    else DelayBySeverity(infos[name], statuses[name])
  }

  /** Whether polling, a uevent or the first visit forces a read (pending overrides come on top). */
  predicate Due(info: SensorInfo, st: SensorStatus, uevents: map<string, Float>, now: int, name: string, sleep: int) {
    if st.lastUpdate.Never? then true
    else if uevents != map[] then
      if info.composition.Virtual? then exists t | t in info.composition.triggers :: t in uevents else name in uevents
    else now - st.lastUpdate.ms > sleep
  }

  /** A uevent for a physical sensor that carries no temperature bypasses the cache. */
  predicate Uncached(info: SensorInfo, st: SensorStatus, uevents: map<string, Float>, name: string) {
    st.lastUpdate.At? && info.composition.Physical? && name in uevents && uevents[name].NaN?
  }

  function TakePending(st: SensorStatus): SensorStatus {
    st.(override := st.override.(pendingUpdate := false))
  }

  /** Queue the notification of a sensor that was just read, if one is pending. */
  function Push(infos: Infos, r: Round, name: string, o: Outcome): Round
    requires ValidStatuses(infos, r.world.statuses) && name in infos && o.Okay?
  {
    var st := r.world.statuses[name];
    if !st.pendingNotification then r else
    r.(world := World(r.world.statuses[name := st.(pendingNotification := false)],
                      r.world.log + [Pushed(name, o.severity)]),
       temps := r.temps + [(name, o)])
  }

  /** What follows a successful read: notify, vote for a sleep, remember the time. */
  function Finish(infos: Infos, r: Round, name: string, o: Outcome, sleep: int, now: int): (r': Round)
    requires ValidStatuses(infos, r.world.statuses) && name in infos && o.Okay?
    ensures ValidStatuses(infos, r'.world.statuses)
  {
    var st := r.world.statuses[name];
    var sleep' := if st.pendingNotification then DelayBySeverity(infos[name], st) else sleep;
    var p := Push(infos, r, name, o);
    p.(world := p.world.(statuses := p.world.statuses[name := p.world.statuses[name].(lastUpdate := At(now))]),
       sleep := Shorter(p.sleep, sleep'), used := p.used[name := sleep'])
  }

  /** The table once the pending override of a sensor has been taken. */
  function Taken(infos: Infos, w: World, name: string): (w': World)
    requires ValidStatuses(infos, w.statuses) && name in infos
    ensures ValidStatuses(infos, w'.statuses)
  {
    w.(statuses := w.statuses[name := TakePending(w.statuses[name])])
  }

  /** Reading a sensor in a round, and what follows if it could be read. */
  ghost function Refresh(infos: Infos, ranks: Ranks, r: Round, env: Env, now: int,
                         name: string, force: bool, sleep: int): (r': Round)
    requires ValidInfos(infos, ranks) && ValidStatuses(infos, r.world.statuses) && name in infos
    ensures ValidStatuses(infos, r'.world.statuses)
  {
    var (w, o) := ReadTemp(infos, ranks, r.world, env, now, name, force);
    if o.Okay? then Finish(infos, r.(world := w), name, o, sleep, now)
    else r.(world := w, failed := r.failed + {name})
  }

  /** One iteration of the watcher loop. */
  ghost function Visit(infos: Infos, ranks: Ranks, r: Round, env: Env,
                       uevents: map<string, Float>, now: int, name: string): (r': Round)
    requires ValidInfos(infos, ranks) && ValidStatuses(infos, r.world.statuses) && name in infos
    ensures ValidStatuses(infos, r'.world.statuses)
  {
    if !infos[name].isWatch then r else
    var info, st := infos[name], r.world.statuses[name];
    var sleep := SleepBefore(infos, r.world.statuses, name);
    var w := Taken(infos, r.world, name);
    if !Due(info, st, uevents, now, name, sleep) && !st.override.pendingUpdate then
      r.(world := w, sleep := Shorter(r.sleep, sleep - (now - st.lastUpdate.ms)), used := r.used[name := sleep])
    else Refresh(infos, ranks, r.(world := w), env, now, name, Uncached(info, st, uevents, name), sleep)
  }

  ghost function Visits(infos: Infos, ranks: Ranks, r: Round, env: Env,
                        uevents: map<string, Float>, now: int, order: seq<string>): (r': Round)
    requires ValidInfos(infos, ranks) && ValidStatuses(infos, r.world.statuses)
    requires forall n | n in order :: n in infos
    ensures ValidStatuses(infos, r'.world.statuses)
    decreases |order|
  {
    if order == [] then r
    else Visit(infos, ranks, Visits(infos, ranks, r, env, uevents, now, order[..|order| - 1]),
               env, uevents, now, order[|order| - 1])
  }

  /** The uevent temperatures stored at the start of a round. */
  function StoreUevents(statuses: Statuses, uevents: map<string, Float>, now: int): Statuses {
    map n | n in statuses ::
      if n in uevents then statuses[n].(cached := StoreUevent(statuses[n].cached, now, uevents[n])) else statuses[n]
  }

  /** thermalWatcherCallbackFunc; order is the iteration order of the sensor table. */
  ghost function WatchRound(infos: Infos, ranks: Ranks, w: World, env: Env,
                            uevents: map<string, Float>, now: int, order: seq<string>): (r: Round)
    requires ValidInfos(infos, ranks) && ValidStatuses(infos, w.statuses)
    requires forall n | n in order :: n in infos
    ensures ValidStatuses(infos, r.world.statuses)
  {
    Visits(infos, ranks, Round(w.(statuses := StoreUevents(w.statuses, uevents, now)), Forever, [], {}, map[]),
           env, uevents, now, order)
  }
}
