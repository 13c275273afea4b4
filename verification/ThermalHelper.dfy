/** The thermal helper object: its sensor table and the methods that update it in place. */
module ThermalHelper {
  import opened ThermalTypes
  import opened ThermalSeverity
  import opened ThermalSample
  import opened ThermalFormula
  import opened ThermalWorld
  import opened ThermalEmulation

  class ThermalHelperImpl {
    const infos: Infos
    ghost const ranks: Ranks
    var statuses: Statuses
    ghost var log: seq<Note>

    ghost predicate Valid()
      reads this
    {
      ValidInfos(infos, ranks) && ValidStatuses(infos, statuses)
    }

    ghost function Table(): World
      reads this
    {
      World(statuses, log)
    }

    constructor (infos: Infos, ghost ranks: Ranks)
      requires ValidInfos(infos, ranks)
      ensures Valid() && this.infos == infos
      ensures Table() == World(map n | n in infos :: FRESH, [])
    {
      this.infos, this.ranks := infos, ranks;
      statuses := map n | n in infos :: FRESH;
      log := [];
    }

    // ----- Reading -----

    /** readThermalSensor. */
    method ReadThermalSensor(name: string, env: Env, now: int, force: bool) returns (reading: Reading)
      requires Valid() && name in infos
      modifies this
      ensures Valid()
      ensures var r := ReadSensor(infos, ranks, old(Table()), env, now, name, force);
              Table() == r.0 && reading == r.1
      decreases ranks.links[name], 5, 0
    {
      hide ValidInfos, Compose, Store;
      var st := statuses[name];
      if st.override.emul.Emulated? { return Read(st.override.emul.temp); }
      if ServedFromCache(infos[name].smoothing, st.cached, now, force) { return Read(st.cached.temp); }
      var raw := ComposeSensor(name, env, now, force);
      assert statuses[name] == st;
      reading := SmoothAndStore(name, now, force, raw);
    }

    method SmoothAndStore(name: string, now: int, force: bool, raw: Raw) returns (reading: Reading)
      requires Valid() && name in infos
      requires !ServedFromCache(infos[name].smoothing, statuses[name].cached, now, force)
      modifies this
      ensures Valid()
      ensures var r := Store(infos, old(Table()), now, name, force, raw);
              Table() == r.0 && reading == r.1
    {
      hide ValidInfos;
      var st, cfg := statuses[name], infos[name].smoothing;
      match raw
      case RawError => reading := Failed;
      case RawCollecting => reading := Collecting;
      case Composed(t) =>
        var temp := t;
        if InFilterWindow(cfg, st.cached, now) {
          temp := Mix(cfg.stepRatio.value, t, st.cached.temp.value);
        }
        st := st.(cached := Sample(temp, At(now)));
        reading := Read(temp);
      statuses := statuses[name := st];
    }

    /** The middle of readThermalSensor: the file of a physical sensor, or the inputs of a virtual one. */
    method ComposeSensor(name: string, env: Env, now: int, force: bool) returns (raw: Raw)
      requires Valid() && name in infos
      modifies this
      ensures Valid()
      ensures var r := Compose(infos, ranks, old(Table()), env, now, name, force);
              Table() == r.0 && raw == r.1
      decreases ranks.links[name], 4, 0
    {
      hide ValidInfos, ReadSources, Evaluate, Refreshed;
      LinksRanked(infos, ranks, name);
      if infos[name].composition.Physical? { return env.file(name); }
      var inputs := ReadInputs(infos[name].composition.linked, env, now, force, ranks.links[name]);
      match inputs
      case NoInput => return RawError;
      case LateInput => return RawCollecting;
      case Values(readings) => raw := ApplyFormula(name, env, now, force, readings);
    }

    method ApplyFormula(name: string, env: Env, now: int, force: bool, readings: seq<real>) returns (raw: Raw)
      requires Valid() && name in infos && infos[name].composition.Virtual?
      requires |readings| == |infos[name].composition.linked|
      modifies this
      ensures Valid()
      ensures var r := Evaluate(infos, ranks, old(Table()), env, now, name, force, readings);
              Table() == r.0 && raw == r.1
      decreases ranks.links[name], 3, 0
    {
      hide ValidInfos, Weigh, Backup, Refreshed;
      match infos[name].composition.formula
      case PreviouslyPredicted => raw := env.predict(name);
      case Estimated =>
        var answer := env.estimate(name, readings);
        if answer.Answer? { return answer.raw; }
        raw := ReadBackup(name, env, now, force);
      case _ => raw := WeighInputs(name, env, now, force, readings);
    }

    /** readDataByType for a sensor. */
    method ReadDataByType(name: string, env: Env, now: int, force: bool, ghost bound: nat) returns (raw: Raw)
      requires Valid() && Below(infos, ranks, name, bound)
      modifies this
      ensures Valid()
      ensures var r := ReadData(infos, ranks, old(Table()), env, now, name, force, bound);
              Table() == r.0 && raw == r.1
      decreases bound, 0, 0
    {
      hide ValidInfos, ReadSensor, Refreshed;
      if name !in infos { return RawError; }
      var reading := ReadThermalSensor(name, env, now, force);
      match reading
      case Failed => raw := RawError;
      case Collecting => raw := RawCollecting;
      case Read(t) => raw := Composed(t);
    }

    /** The loop over the linked sensors. */
    method ReadInputs(sources: seq<Source>, env: Env, now: int, force: bool, ghost bound: nat) returns (inputs: Inputs)
      requires Valid() && SourcesBelow(infos, ranks, sources, bound)
      modifies this
      ensures Valid()
      ensures var r := ReadSources(infos, ranks, old(Table()), env, now, sources, force, [], bound);
              Table() == r.0 && inputs == r.1
      decreases bound, 1, 0
    {
      hide ValidInfos, ThermalWorld.ReadSource, Refreshed;
      LinksRanked(infos, ranks, "");
      var values: seq<real>, i := [], 0;
      assert sources[0..] == sources;
      while i < |sources|
        invariant 0 <= i <= |sources| && Valid()
        invariant SourcesBelow(infos, ranks, sources[i..], bound)
        invariant ReadSources(infos, ranks, old(Table()), env, now, sources, force, [], bound)
               == ReadSources(infos, ranks, Table(), env, now, sources[i..], force, values, bound)
      {
        assert sources[i..][0] == sources[i] && sources[i..][1..] == sources[i + 1..] && sources[i] in sources;
        var raw := ReadSource(sources[i], env, now, force, bound);
        if raw.RawError? { return NoInput; }
        if raw.RawCollecting? || raw.temp.NaN? { return LateInput; }
        values := values + [raw.temp.value];
        i := i + 1;
      }
      return Values(values);
    }

    /** readDataByType. */
    method ReadSource(source: Source, env: Env, now: int, force: bool, ghost bound: nat) returns (raw: Raw)
      requires Valid() && Below(infos, ranks, source.name, bound)
      modifies this
      ensures Valid()
      ensures var r := ThermalWorld.ReadSource(infos, ranks, old(Table()), env, now, source, force, bound);
              Table() == r.0 && raw == r.1
      decreases bound, 0, 1
    {
      if source.isSensor {
        raw := ReadDataByType(source.name, env, now, force, bound);
      } else {
        raw := env.other(source.name);
      }
    }

    /** The weighted formulas. */
    method WeighInputs(name: string, env: Env, now: int, force: bool, readings: seq<real>) returns (raw: Raw)
      requires Valid() && name in infos && infos[name].composition.Virtual?
      requires |readings| == |infos[name].composition.linked|
      modifies this
      ensures Valid()
      ensures var r := Weigh(infos, ranks, old(Table()), env, now, name, force, readings);
              Table() == r.0 && raw == r.1
      ensures raw.Composed? ==> exists coefficients: seq<real> ::
        && |coefficients| == |readings| && raw.temp.Num?
        && Means(infos[name].composition.formula, readings, coefficients,
                 raw.temp.value - infos[name].composition.offset)
      decreases ranks.links[name], 2, 0
    {
      hide ValidInfos, ReadSources, Refreshed, Combine, Below, Means;
      LinksRanked(infos, ranks, name);
      var c := infos[name].composition;
      var inputs, sum := SumInputs(c.coefficients, c.formula, readings, env, now, force, ranks.links[name]);
      match inputs
      case NoInput => raw := RawError;
      case LateInput => raw := RawCollecting;
      case Values(coefficients) =>
        CombineMeans(c.formula, readings, coefficients);
        raw := Composed(Num(sum + c.offset));
        assert raw.temp.value - c.offset == sum;
    }

    /** The loop over the coefficients, which sums up as it reads. */
    method SumInputs(sources: seq<Source>, formula: Formula, readings: seq<real>, env: Env, now: int, force: bool,
                     ghost bound: nat) returns (inputs: Inputs, sum: real)
      requires Valid() && SourcesBelow(infos, ranks, sources, bound) && |readings| == |sources|
      modifies this
      ensures Valid()
      ensures var r := ReadSources(infos, ranks, old(Table()), env, now, sources, force, [], bound);
              Table() == r.0 && inputs == r.1
      ensures inputs.Values? ==> |inputs.values| == |readings| && sum == Combine(formula, readings, inputs.values)
      decreases bound, 1, 0
    {
      hide ValidInfos, ThermalWorld.ReadSource, Refreshed, Combine, Contribution, Below;
      LinksRanked(infos, ranks, "");
      CombineNone(formula);
      assert readings[..0] == [] && sources[0..] == sources;
      var read: seq<real>, i := [], 0;
      sum := 0.0;
      while i < |sources|
        invariant 0 <= i <= |sources| && Valid() && |read| == i
        invariant SourcesBelow(infos, ranks, sources[i..], bound)
        invariant sum == Combine(formula, readings[..i], read)
        invariant ReadSources(infos, ranks, old(Table()), env, now, sources, force, [], bound)
               == ReadSources(infos, ranks, Table(), env, now, sources[i..], force, read, bound)
      {
        assert sources[i..][0] == sources[i] && sources[i..][1..] == sources[i + 1..] && sources[i] in sources;
        var coefficient := ReadSource(sources[i], env, now, force, bound);
        if coefficient.RawError? { return NoInput, sum; }
        if coefficient.RawCollecting? || coefficient.temp.NaN? { return LateInput, sum; }
        sum := Accumulate(formula, sum, i == 0, readings[i], coefficient.temp.value);
        CombineNext(formula, readings, read, coefficient.temp.value);
        read := read + [coefficient.temp.value];
        i := i + 1;
      }
      assert readings[..i] == readings;
      inputs := Values(read);
    }

    /** The switch on the formula inside that loop. */
    static method Accumulate(formula: Formula, soFar: real, first: bool, reading: real, coefficient: real)
      returns (sum: real)
      ensures sum == Contribution(formula, soFar, first, reading, coefficient)
    {
      sum := soFar;
      match formula
      case CountThreshold =>
        if (coefficient < 0.0 && reading < -coefficient) || (coefficient >= 0.0 && reading >= coefficient) {
          sum := sum + 1.0;
        }
      case WeightedAvg => sum := sum + reading * coefficient;
      case Maximum => if first || reading * coefficient > sum { sum := reading * coefficient; }
      case Minimum => if first || reading * coefficient < sum { sum := reading * coefficient; }
      case _ =>
    }

    /** The estimator's fallback. */
    method ReadBackup(name: string, env: Env, now: int, force: bool) returns (raw: Raw)
      requires Valid() && name in infos && infos[name].composition.Virtual?
      modifies this
      ensures Valid()
      ensures var r := Backup(infos, ranks, old(Table()), env, now, name, force);
              Table() == r.0 && raw == r.1
      decreases ranks.links[name], 1, 0
    {
      hide ValidInfos, ReadData, Refreshed;
      LinksRanked(infos, ranks, name);
      var backup := infos[name].composition.backup;
      if backup == "" { return RawError; }
      raw := ReadDataByType(backup, env, now, force, ranks.links[name]);
      if raw.RawCollecting? { raw := Composed(env.unset(name)); }
    }

    method GetSeverityReference(name: string, env: Env, now: int) returns (target: Severity)
      requires Valid() && name in infos
      modifies this
      ensures Valid()
      ensures ReferencesBelow(infos, ranks, name)
      ensures var r := ReferenceSeverity(infos, ranks, old(Table()), env, now, infos[name].references, NONE,
                                         ranks.refs[name]);
              Table() == r.0 && target == r.1
      decreases ranks.refs[name], 0
    {
      hide ReadTemp, LinksBelow, TriggersExist;
      target := NONE;
      var refs := infos[name].references;
      var i := 0;
      while i < |refs|
        invariant 0 <= i <= |refs| && Valid()
        invariant ReferenceSeverity(infos, ranks, old(Table()), env, now, refs, NONE, ranks.refs[name])
               == ReferenceSeverity(infos, ranks, Table(), env, now, refs[i..], target, ranks.refs[name])
      {
        assert refs[i..][0] == refs[i] && refs[i..][1..] == refs[i + 1..];
        assert refs[i] in refs;
        var o := ReadTemperature(refs[i], env, now, false);
        if !o.Okay? { return NONE; }
        target := MaxSeverity(target, o.severity);
        i := i + 1;
      }
    }

    method ReadTemperature(name: string, env: Env, now: int, forceNoCache: bool) returns (o: Outcome)
      requires Valid() && name in infos
      modifies this
      ensures Valid()
      ensures var r := ReadTemp(infos, ranks, old(Table()), env, now, name, forceNoCache);
              Table() == r.0 && o == r.1
      decreases ranks.refs[name], 1
    {
      hide ReadSensor, Apply, LinksBelow, TriggersExist;
      ghost var w0 := Table();
      var reading := ReadThermalSensor(name, env, now, forceNoCache);
      ghost var w1 := Table();
      assert ReadSensor(infos, ranks, w0, env, now, name, forceNoCache) == (w1, reading);
      if reading.Failed? { return ReadFailed; }
      if reading.Collecting? { return UnderCollecting; }
      if reading.temp.NaN? { return ReadFailed; }
      var reference := GetSeverityReference(name, env, now);
      ghost var w2 := Table();
      assert ReferenceSeverity(infos, ranks, w1, env, now, infos[name].references, NONE, ranks.refs[name])
          == (w2, reference);
      var value := infos[name].Scale(reading.temp.value);
      if !infos[name].isWatch { return Okay(value, NONE); }
      ApplySeverity(name, reference, value);
      assert Table() == Apply(infos, w2, name, reference, value);
      o := Okay(value, statuses[name].severity);
    }

    /** The locked region of a read that stores the new severities. */
    method ApplySeverity(name: string, reference: Severity, value: real)
      requires Valid() && name in infos
      modifies this
      ensures Valid() && Table() == Apply(infos, old(Table()), name, reference, value)
    {
      hide Update;
      var st := UpdateStatus(infos[name], statuses[name], reference, value);
      log := log + [Seen(name, value, reference, EmulatedSeverity(statuses[name]))];
      if st.severity != statuses[name].severity {
        log := log + [Changed(name, st.severity)];
      }
      statuses := statuses[name := st];
    }

    /** The update of one status record, field by field. */
    static method UpdateStatus(info: SensorInfo, st: SensorStatus, reference: Severity, value: real)
      returns (st': SensorStatus)
      ensures st' == Update(info, st, reference, value)
    {
      st' := st;
      var hot, cold := GetSeverityFromThresholds(info.hot, info.cold, info.hotHyst, info.coldHyst,
                                                 st.prevHot, st.prevCold, value);
      var severity := if hot > cold then hot else cold;
      if hot != st.prevHot { st' := st'.(prevHot := hot); }
      if cold != st.prevCold { st' := st'.(prevCold := cold); }
      severity := MaxSeverity(severity, reference);
      if st.override.emul.Emulated? && st.override.emul.severity >= 0 {
        severity := st.override.emul.severity;
      }
      if st.severity != severity {
        st' := st'.(severity := severity, pendingNotification := true);
      }
    }

    // ----- The watcher -----

    method TriggerFound(name: string, uevents: map<string, Float>) returns (found: bool)
      requires Valid() && name in infos && infos[name].composition.Virtual?
      ensures found <==> exists t | t in infos[name].composition.triggers :: t in uevents
    {
      var triggers := infos[name].composition.triggers;
      for i := 0 to |triggers|
        invariant forall k | 0 <= k < i :: triggers[k] !in uevents
      {
        if triggers[i] in uevents { return true; }
      }
      return false;
    }

    method CurrentDelay(name: string) returns (sleep: int)
      requires Valid() && name in infos
      ensures TriggersExist(infos, name)
      ensures sleep == SleepBefore(infos, statuses, name)
    {
      var info := infos[name];
      sleep := if statuses[name].severity != NONE then info.PassiveDelay() else info.pollingDelay;
      if info.composition.Virtual? {
        var triggers := info.composition.triggers;
        for i := 0 to |triggers|
          invariant sleep == DelayBySeverity(info, statuses[name])
          invariant forall k | 0 <= k < i :: statuses[triggers[k]].severity == NONE
        {
          if statuses[triggers[i]].severity != NONE {
            assert triggers[i] in triggers && TriggerActive(infos, statuses, name);
            sleep := info.PassiveDelay();
            return;
          }
        }
        assert forall t | t in triggers :: statuses[t].severity == NONE;
      }
    }

    method ThermalWatcherCallback(uevents: map<string, Float>, env: Env, now: int, order: seq<string>)
      returns (minSleep: Sleep, temps: seq<(string, Outcome)>)
      requires Valid() && uevents.Keys <= infos.Keys
      requires forall n | n in order :: n in infos
      modifies this
      ensures Valid()
      ensures var r := WatchRound(infos, ranks, old(Table()), env, uevents, now, order);
              Table() == r.world && minSleep == r.sleep && temps == r.temps
    {
      hide Visit, ReferencesBelow, TriggersExist, StoreUevents;
      StoreUeventReadings(uevents, now);
      minSleep, temps := Forever, [];
      ghost var r := Round(Table(), Forever, [], {}, map[]);
      ghost var start := r;
      var i := 0;
      while i < |order|
        invariant 0 <= i <= |order| && Valid()
        invariant r == Visits(infos, ranks, start, env, uevents, now, order[..i])
        invariant r.world == Table() && r.sleep == minSleep && r.temps == temps
      {
        assert order[..i + 1][..i] == order[..i];
        assert r == Round(Table(), minSleep, temps, r.failed, r.used);
        minSleep, temps := WatchSensor(order[i], uevents, env, now, minSleep, temps, r.failed, r.used);
        r := Visit(infos, ranks, r, env, uevents, now, order[i]);
        i := i + 1;
      }
      assert order[..i] == order;
    }

    method StoreUeventReadings(uevents: map<string, Float>, now: int)
      requires Valid() && uevents.Keys <= infos.Keys
      modifies this`statuses
      ensures Valid() && statuses == StoreUevents(old(statuses), uevents, now)
    {
      hide ValidInfos;
      var todo := uevents.Keys;
      while todo != {}
        invariant todo <= uevents.Keys && Valid()
        invariant forall n | n in statuses :: statuses[n]
                    == if n in uevents && n !in todo then StoreUevents(old(statuses), uevents, now)[n]
                        else old(statuses)[n]
        decreases |todo|
      {
        var n :| n in todo;
        if uevents[n].Num? {
          statuses := statuses[n := statuses[n].(cached := Sample(uevents[n], At(now)))];
        }
        todo := todo - {n};
      }
    }

    /** The body of the watcher loop for one sensor. */
    method WatchSensor(name: string, uevents: map<string, Float>, env: Env, now: int,
                       minSleep: Sleep, temps: seq<(string, Outcome)>,
                       ghost failed: set<string>, ghost used: map<string, int>)
      returns (minSleep': Sleep, temps': seq<(string, Outcome)>)
      requires Valid() && name in infos
      modifies this
      ensures Valid()
      ensures var r := Visit(infos, ranks, Round(old(Table()), minSleep, temps, failed, used), env, uevents, now, name);
              Table() == r.world && minSleep' == r.sleep && temps' == r.temps
    {
      hide ValidInfos, Refresh, Taken, SleepBefore, Due, Uncached, ReferencesBelow, TriggersExist, DelayBySeverity,
          TriggerActive;
      minSleep', temps' := minSleep, temps;
      if infos[name].isWatch {
        var st := statuses[name];
        var sleep := CurrentDelay(name);
        var forceUpdate, forceNoCache := CheckDue(name, uevents, now, sleep);
        if st.override.pendingUpdate { forceUpdate := true; }
        TakeOverride(name);
        if !forceUpdate {
          var remaining := sleep - (now - st.lastUpdate.ms);
          if minSleep'.Forever? || minSleep'.ms > remaining { minSleep' := Ms(remaining); }
        } else {
          minSleep', temps' := RefreshSensor(name, env, now, forceNoCache, sleep, minSleep, temps, failed, used);
        }
      }
    }

    method RefreshSensor(name: string, env: Env, now: int, force: bool, sleep: int,
                         minSleep: Sleep, temps: seq<(string, Outcome)>,
                         ghost failed: set<string>, ghost used: map<string, int>)
      returns (minSleep': Sleep, temps': seq<(string, Outcome)>)
      requires Valid() && name in infos
      modifies this
      ensures Valid()
      ensures var r := Refresh(infos, ranks, Round(old(Table()), minSleep, temps, failed, used), env, now, name,
                               force, sleep);
              Table() == r.world && minSleep' == r.sleep && temps' == r.temps
    {
      hide ValidInfos, ReadTemp, Finish, ReferencesBelow, TriggersExist;
      minSleep', temps' := minSleep, temps;
      var o := ReadTemperature(name, env, now, force);
      if o.Okay? {
        minSleep', temps' := FinishSensor(name, o, sleep, now, minSleep, temps, failed, used);
      }
    }

    method CheckDue(name: string, uevents: map<string, Float>, now: int, sleep: int)
      returns (forceUpdate: bool, forceNoCache: bool)
      requires Valid() && name in infos
      ensures forceUpdate == Due(infos[name], statuses[name], uevents, now, name, sleep)
      ensures forceNoCache == Uncached(infos[name], statuses[name], uevents, name)
      ensures !forceUpdate ==> statuses[name].lastUpdate.At?
    {
      var st := statuses[name];
      forceUpdate, forceNoCache := false, false;
      if st.lastUpdate.Never? {
        forceUpdate := true;
      } else if uevents != map[] {
        if infos[name].composition.Virtual? {
          forceUpdate := TriggerFound(name, uevents);
        } else if name in uevents {
          forceUpdate := true;
          forceNoCache := uevents[name].NaN?;
        }
      } else if now - st.lastUpdate.ms > sleep {
        forceUpdate := true;
      }
    }

    method TakeOverride(name: string)
      requires Valid() && name in infos
      modifies this`statuses
      ensures Valid() && Table() == Taken(infos, old(Table()), name)
    {
      if statuses[name].override.pendingUpdate {
        statuses := statuses[name := statuses[name].(override := statuses[name].override.(pendingUpdate := false))];
      } else {
        assert statuses == statuses[name := TakePending(statuses[name])];
      }
    }

    method FinishSensor(name: string, o: Outcome, sleep: int, now: int, minSleep: Sleep, temps: seq<(string, Outcome)>,
                        ghost failed: set<string>, ghost used: map<string, int>)
      returns (minSleep': Sleep, temps': seq<(string, Outcome)>)
      requires Valid() && name in infos && o.Okay?
      modifies this
      ensures Valid()
      ensures var r := Finish(infos, Round(old(Table()), minSleep, temps, failed, used), name, o, sleep, now);
              Table() == r.world && minSleep' == r.sleep && temps' == r.temps
    {
      minSleep', temps' := minSleep, temps;
      var sleep' := sleep;
      if statuses[name].pendingNotification {
        temps' := temps' + [(name, o)];
        sleep' := if statuses[name].severity != NONE then infos[name].PassiveDelay() else infos[name].pollingDelay;
        statuses := statuses[name := statuses[name].(pendingNotification := false)];
        log := log + [Pushed(name, o.severity)];
      }
      if minSleep'.Forever? || minSleep'.ms > sleep' { minSleep' := Ms(sleep'); }
      statuses := statuses[name := statuses[name].(lastUpdate := At(now))];
    }

    // ----- Emulation -----

    /** Flags everything that is recomputed from the target, however many links away. */
    method CheckUpdateSensorForEmul(target: string, maxThrottling: bool)
      requires Valid() && target in infos
      modifies this`statuses
      ensures Valid() && statuses == Mark(old(statuses), Dependents(infos, target), maxThrottling)
      decreases ranks.top - ranks.links[target]
    {
      hide Mark, Through, Dependents, LinksBelow, ReferencesBelow, TriggersExist;
      var todo := infos.Keys;
      ThroughNone(infos, target, statuses, maxThrottling);
      while todo != {}
        invariant todo <= infos.Keys && Valid()
        invariant statuses == Mark(old(statuses), Through(infos, target, infos.Keys - todo), maxThrottling)
        decreases |todo|
      {
        var n :| n in todo;
        ghost var visited := infos.Keys - todo;
        ghost var reached := Through(infos, target, visited);
        ThroughOne(infos, target, visited, n);
        todo := todo - {n};
        assert infos.Keys - todo == visited + {n};
        if infos[n].composition.Virtual? && infos[n].isWatch && Lists(infos[n].composition.linked, target) {
          assert Direct(infos, target, n);
          DirectAscends(infos, ranks, target, n);
          MarkSensor(n, maxThrottling);
          CheckUpdateSensorForEmul(n, maxThrottling);
          MarkUnion(old(statuses), reached, {n}, maxThrottling);
          MarkUnion(old(statuses), reached + {n}, Dependents(infos, n), maxThrottling);
          assert reached + {n} + Dependents(infos, n) == reached + ({n} + Dependents(infos, n));
        } else {
          assert reached + {} == reached;
        }
      }
      assert infos.Keys - todo == infos.Keys;
      ThroughAll(infos, target);
    }

    method MarkSensor(name: string, maxThrottling: bool)
      requires Valid() && name in infos
      modifies this`statuses
      ensures Valid() && statuses == Mark(old(statuses), {name}, maxThrottling)
    {
      var override := statuses[name].override.(maxThrottling := maxThrottling);
      override := override.(pendingUpdate := true);
      statuses := statuses[name := statuses[name].(override := override)];
    }

    method EmulTemp(target: string, temp: Float, maxThrottling: bool) returns (ok: bool)
      requires Valid()
      modifies this`statuses
      ensures Valid() && ok == (target in infos)
      ensures ok ==> statuses == Emulate(infos, old(statuses), target, Emulated(temp, -1), maxThrottling)
      ensures !ok ==> statuses == old(statuses)
    {
      if target !in statuses { return false; }
      statuses := statuses[target := statuses[target].(override := Override(Emulated(temp, -1), maxThrottling, true))];
      CheckUpdateSensorForEmul(target, maxThrottling);
      ok := true;
    }

    /** The guard compares with the number of severities, so it lets an index just past the arrays (and
        negative ones) through; those calls are outside this model. */
    method EmulSeverity(target: string, severity: int, maxThrottling: bool) returns (ok: bool)
      requires Valid()
      requires 0 <= severity <= 6 || severity > 7
      modifies this`statuses
      ensures Valid() && ok == (target in infos && severity <= 7)
      ensures ok ==> statuses == Emulate(infos, old(statuses), target,
                                         Emulated(Unscale(infos[target], severity), severity), maxThrottling)
      ensures !ok ==> statuses == old(statuses)
    {
      if target !in statuses || target !in infos { return false; }
      if severity > 7 { return false; }
      var temp := Unscale(infos[target], severity);
      var emul := Emulated(temp, severity);
      statuses := statuses[target := statuses[target].(override := Override(emul, maxThrottling, true))];
      CheckUpdateSensorForEmul(target, maxThrottling);
      ok := true;
    }

    method EmulClearAll()
      requires Valid()
      modifies this`statuses
      ensures Valid() && statuses == ClearEverything(old(statuses))
    {
      hide ValidInfos;
      var todo := statuses.Keys;
      while todo != {}
        invariant todo <= infos.Keys && Valid()
        invariant forall n | n in statuses && n !in todo :: statuses[n] == Cleared(old(statuses)[n])
        invariant forall n | n in statuses :: Cleared(statuses[n]) == Cleared(old(statuses)[n])
        decreases |todo|
      {
        var n :| n in todo;
        ClearOne(n);
        todo := todo - {n};
      }
    }

    /** Clears one sensor and flags its dependents; a sensor that was cleared before stays cleared. */
    method ClearOne(n: string)
      requires Valid() && n in infos
      modifies this`statuses
      ensures Valid() && statuses[n] == Cleared(old(statuses)[n])
      ensures forall m | m in statuses :: Cleared(statuses[m]) == Cleared(old(statuses)[m])
      ensures forall m | m in statuses && old(statuses)[m] == Cleared(old(statuses)[m]) ::
        statuses[m] == old(statuses)[m]
    {
      hide ValidInfos, Dependents;
      NotItsOwnDependent(infos, ranks, n);
      statuses := statuses[n := Cleared(statuses[n])];
      CheckUpdateSensorForEmul(n, false);
    }

    method EmulClear(target: string) returns (ok: bool)
      requires Valid()
      modifies this`statuses
      ensures Valid() && ok == (target == "all" || target in infos)
      ensures target == "all" ==> statuses == ClearEverything(old(statuses))
      ensures target != "all" && ok ==> statuses == Emulate(infos, old(statuses), target, NotEmulated, false)
      ensures !ok ==> statuses == old(statuses)
    {
      if target == "all" {
        EmulClearAll();
        return true;
      }
      if target !in statuses { return false; }
      statuses := statuses[target := statuses[target].(override := Override(NotEmulated, false, true))];
      CheckUpdateSensorForEmul(target, false);
      ok := true;
    }
  }
}
