/** What reads and watcher visits amount to, said without the functions that compute them. */
module ThermalReads {
  import opened Wrappers
  import opened ThermalTypes
  import opened ThermalSeverity
  import opened ThermalSample
  import opened ThermalFormula
  import opened ThermalWorld
  import opened ThermalEmulation
  import opened ThermalRounds

  // ----- Composing -----

  lemma {:induction false} SourcesPrefix(infos: Infos, ranks: Ranks, w: World, env: Env, now: int, sources: seq<Source>,
                                         force: bool, values: seq<real>, bound: nat)
    requires ValidInfos(infos, ranks) && ValidStatuses(infos, w.statuses) && SourcesBelow(infos, ranks, sources, bound)
    ensures var r := ReadSources(infos, ranks, w, env, now, sources, force, values, bound);
            r.1.Values? ==> r.1.values[..|values|] == values
    decreases |sources|
  {
    hide ValidInfos, ReadSource, Refreshed;
    if sources != [] {
      assert sources[0] in sources;
      var (w1, raw) := ReadSource(infos, ranks, w, env, now, sources[0], force, bound);
      if raw.Composed? && raw.temp.Num? {
        SourcesPrefix(infos, ranks, w1, env, now, sources[1..], force, values + [raw.temp.value], bound);
      }
    }
  }

  /** The world in which the k-th input is read: after the inputs before it. */
  ghost function WorldAt(infos: Infos, ranks: Ranks, w: World, env: Env, now: int, sources: seq<Source>, force: bool,
                         bound: nat, k: nat): (w': World)
    requires ValidInfos(infos, ranks) && ValidStatuses(infos, w.statuses) && SourcesBelow(infos, ranks, sources, bound)
    requires k <= |sources|
    ensures ValidStatuses(infos, w'.statuses)
  {
    if k == 0 then w else
    var before := WorldAt(infos, ranks, w, env, now, sources, force, bound, k - 1);
    assert sources[k - 1] in sources;
    ReadSource(infos, ranks, before, env, now, sources[k - 1], force, bound).0
  }

  lemma {:induction false} WorldAtShift(infos: Infos, ranks: Ranks, w: World, env: Env, now: int, sources: seq<Source>,
                                        force: bool, bound: nat, k: nat)
    requires ValidInfos(infos, ranks) && ValidStatuses(infos, w.statuses) && SourcesBelow(infos, ranks, sources, bound)
    requires k < |sources|
    ensures Below(infos, ranks, sources[0].name, bound)
    ensures var w1 := ReadSource(infos, ranks, w, env, now, sources[0], force, bound).0;
            WorldAt(infos, ranks, w, env, now, sources, force, bound, k + 1)
            == WorldAt(infos, ranks, w1, env, now, sources[1..], force, bound, k)
  {
    hide ValidInfos, ReadSource, Refreshed;
    assert sources[0] in sources;
    if k > 0 { WorldAtShift(infos, ranks, w, env, now, sources, force, bound, k - 1); }
  }

  /** The values read are those of the inputs, each read in turn and in order. */
  lemma {:induction false} SourcesInOrder(infos: Infos, ranks: Ranks, w: World, env: Env, now: int,
                                          sources: seq<Source>, force: bool, values: seq<real>, bound: nat, k: nat)
    requires ValidInfos(infos, ranks) && ValidStatuses(infos, w.statuses) && SourcesBelow(infos, ranks, sources, bound)
    requires k < |sources| && Below(infos, ranks, sources[k].name, bound)
    ensures var read := ReadSources(infos, ranks, w, env, now, sources, force, values, bound).1;
            var before := WorldAt(infos, ranks, w, env, now, sources, force, bound, k);
      read.Values? ==>
        ReadSource(infos, ranks, before, env, now, sources[k], force, bound).1
        == Composed(Num(read.values[|values| + k]))
    decreases |sources|
  {
    hide ValidInfos, ReadSource, Refreshed;
    assert sources[0] in sources;
    var (w1, raw) := ReadSource(infos, ranks, w, env, now, sources[0], force, bound);
    if raw.Composed? && raw.temp.Num? {
      var more := values + [raw.temp.value];
      SourcesPrefix(infos, ranks, w1, env, now, sources[1..], force, more, bound);
      var read := ReadSources(infos, ranks, w1, env, now, sources[1..], force, more, bound).1;
      if k > 0 {
        WorldAtShift(infos, ranks, w, env, now, sources, force, bound, k - 1);
        SourcesInOrder(infos, ranks, w1, env, now, sources[1..], force, more, bound, k - 1);
      } else if read.Values? {
        assert read.values[|values|] == read.values[..|more|][|values|] == raw.temp.value;
      }
    }
  }

  /** An input's value: a sensor's reading, where only an error is an error and a sensor still collecting gives no
      number, and otherwise what the platform answers. */
  lemma SourceReads(infos: Infos, ranks: Ranks, w: World, env: Env, now: int, source: Source, force: bool, bound: nat)
    requires ValidInfos(infos, ranks) && ValidStatuses(infos, w.statuses) && Below(infos, ranks, source.name, bound)
    ensures ReadSource(infos, ranks, w, env, now, source, force, bound).1 ==
      if !source.isSensor then env.other(source.name)
      else if source.name !in infos then RawError
      else match ReadSensor(infos, ranks, w, env, now, source.name, force).1
           case Failed => RawError
           case Collecting => RawCollecting
           case Read(t) => Composed(t)
  {
    hide ValidInfos, ReadSensor, Refreshed;
  }

  predicate IsNumber(raw: Raw) {
    raw.Composed? && raw.temp.Num?
  }

  /** What the inputs give, one after the other, up to the first that is not a number. */
  ghost function Raws(infos: Infos, ranks: Ranks, w: World, env: Env, now: int, sources: seq<Source>, force: bool,
                      bound: nat): seq<Raw>
    requires ValidInfos(infos, ranks) && ValidStatuses(infos, w.statuses) && SourcesBelow(infos, ranks, sources, bound)
    decreases |sources|
  {
    if sources == [] then [] else
    assert sources[0] in sources;
    var (w1, raw) := ReadSource(infos, ranks, w, env, now, sources[0], force, bound);
    if IsNumber(raw) then [raw] + Raws(infos, ranks, w1, env, now, sources[1..], force, bound) else [raw]
  }

  /** With a number from each of n inputs there are values; otherwise the last input read has no number, and the list
      fails if that failed and is late if not. */
  ghost predicate StopsAs(raws: seq<Raw>, n: nat, read: Inputs) {
    if forall k | 0 <= k < |raws| :: IsNumber(raws[k]) then read.Values? && |raws| == n
    else
      var last := |raws| - 1;
      && !IsNumber(raws[last]) && read == (if raws[last].RawError? then NoInput else LateInput)
      && forall k | 0 <= k < last :: IsNumber(raws[k])
  }

  lemma StopsLater(raw: Raw, raws: seq<Raw>, n: nat, read: Inputs)
    requires IsNumber(raw) && StopsAs(raws, n, read)
    ensures StopsAs([raw] + raws, n + 1, read)
  {
    var all := [raw] + raws;
    assert forall k | 0 <= k < |raws| :: all[k + 1] == raws[k];
  }

  /** An input that fails makes the whole list fail, and one without a number makes it late; nothing is read behind
      it. */
  lemma {:induction false} SourcesStop(infos: Infos, ranks: Ranks, w: World, env: Env, now: int, sources: seq<Source>,
                                       force: bool, values: seq<real>, bound: nat)
    requires ValidInfos(infos, ranks) && ValidStatuses(infos, w.statuses) && SourcesBelow(infos, ranks, sources, bound)
    ensures StopsAs(Raws(infos, ranks, w, env, now, sources, force, bound), |sources|,
                    ReadSources(infos, ranks, w, env, now, sources, force, values, bound).1)
    decreases |sources|
  {
    hide ValidInfos, ReadSource, Refreshed, StopsAs;
    if sources == [] {
      NothingToRead(values);
    } else {
      assert sources[0] in sources;
      var (w1, raw) := ReadSource(infos, ranks, w, env, now, sources[0], force, bound);
      if IsNumber(raw) {
        var more := values + [raw.temp.value];
        SourcesStop(infos, ranks, w1, env, now, sources[1..], force, more, bound);
        StopsLater(raw, Raws(infos, ranks, w1, env, now, sources[1..], force, bound), |sources| - 1,
                   ReadSources(infos, ranks, w1, env, now, sources[1..], force, more, bound).1);
      } else {
        StopsAtOnce(raw, |sources|);
      }
    }
  }

  lemma NothingToRead(values: seq<real>)
    ensures StopsAs([], 0, Values(values))
  {
  }

  lemma StopsAtOnce(raw: Raw, n: nat)
    requires !IsNumber(raw)
    ensures StopsAs([raw], n, if raw.RawError? then NoInput else LateInput)
  {
    assert [raw][0] == raw;
  }

  /** A weighted virtual sensor is composed from its linked sensors' values, read first, and its coefficients' values,
      read next. */
  lemma ComposeMeans(infos: Infos, ranks: Ranks, w: World, env: Env, now: int, name: string, force: bool)
    requires ValidInfos(infos, ranks) && ValidStatuses(infos, w.statuses) && name in infos
    requires infos[name].composition.Virtual?
    requires !infos[name].composition.formula.Estimated? && !infos[name].composition.formula.PreviouslyPredicted?
    ensures var c, bound := infos[name].composition, ranks.links[name];
      && SourcesBelow(infos, ranks, c.linked, bound) && SourcesBelow(infos, ranks, c.coefficients, bound)
      && var (w1, linked) := ReadSources(infos, ranks, w, env, now, c.linked, force, [], bound);
         var raw := Compose(infos, ranks, w, env, now, name, force).1;
         match linked
         case NoInput => raw == RawError
         case LateInput => raw == RawCollecting
         case Values(rs) =>
           match ReadSources(infos, ranks, w1, env, now, c.coefficients, force, [], bound).1
           case NoInput => raw == RawError
           case LateInput => raw == RawCollecting
           case Values(cs) =>
             raw.Composed? && raw.temp.Num? && |rs| == |cs| && Means(c.formula, rs, cs, raw.temp.value - c.offset)
  {
    hide ReadSources, Weigh, Refreshed, Means;
    LinksRanked(infos, ranks, name);
    var c, bound := infos[name].composition, ranks.links[name];
    var (w1, linked) := ReadSources(infos, ranks, w, env, now, c.linked, force, [], bound);
    if linked.Values? { WeighMeans(infos, ranks, w1, env, now, name, force, linked.values); }
  }

  /** A predicted sensor is its prediction; an estimated one is its estimator's answer on the linked values, or, when
      that is not trusted, its backup sensor, without which it fails. */
  lemma ComposeEstimates(infos: Infos, ranks: Ranks, w: World, env: Env, now: int, name: string, force: bool)
    requires ValidInfos(infos, ranks) && ValidStatuses(infos, w.statuses) && name in infos
    requires infos[name].composition.Virtual?
    requires infos[name].composition.formula.Estimated? || infos[name].composition.formula.PreviouslyPredicted?
    ensures var c, bound := infos[name].composition, ranks.links[name];
      && SourcesBelow(infos, ranks, c.linked, bound)
      && var (w1, linked) := ReadSources(infos, ranks, w, env, now, c.linked, force, [], bound);
         var raw := Compose(infos, ranks, w, env, now, name, force).1;
         match linked
         case NoInput => raw == RawError
         case LateInput => raw == RawCollecting
         case Values(rs) =>
           if c.formula.PreviouslyPredicted? then raw == env.predict(name)
           else if env.estimate(name, rs).Answer? then raw == env.estimate(name, rs).raw
           else if c.backup == "" || c.backup !in infos then raw == RawError
           else match ReadSensor(infos, ranks, w1, env, now, c.backup, force).1
                case Failed => raw == RawError
                case Collecting => raw == Composed(env.unset(name))
                case Read(t) => raw == Composed(t)
  {
    hide ValidInfos, ReadSources, ReadSensor, Backup, Refreshed;
    LinksRanked(infos, ranks, name);
    var c, bound := infos[name].composition, ranks.links[name];
    var (w1, linked) := ReadSources(infos, ranks, w, env, now, c.linked, force, [], bound);
    BackupReads(infos, ranks, w1, env, now, name, force);
  }

  lemma BackupReads(infos: Infos, ranks: Ranks, w: World, env: Env, now: int, name: string, force: bool)
    requires ValidInfos(infos, ranks) && ValidStatuses(infos, w.statuses) && name in infos
    requires infos[name].composition.Virtual?
    ensures var backup := infos[name].composition.backup;
      Backup(infos, ranks, w, env, now, name, force).1 ==
      if backup == "" || backup !in infos then RawError
      else match ReadSensor(infos, ranks, w, env, now, backup, force).1
           case Failed => RawError
           case Collecting => Composed(env.unset(name))
           case Read(t) => Composed(t)
  {
    hide ValidInfos, ReadSensor, Refreshed;
    LinksRanked(infos, ranks, name);
    var backup := infos[name].composition.backup;
    if backup != "" { DataReads(infos, ranks, w, env, now, backup, force, ranks.links[name]); }
  }

  lemma DataReads(infos: Infos, ranks: Ranks, w: World, env: Env, now: int, name: string, force: bool, bound: nat)
    requires ValidInfos(infos, ranks) && ValidStatuses(infos, w.statuses) && Below(infos, ranks, name, bound)
    ensures ReadData(infos, ranks, w, env, now, name, force, bound).1 ==
      if name !in infos then RawError
      else match ReadSensor(infos, ranks, w, env, now, name, force).1
           case Failed => RawError
           case Collecting => RawCollecting
           case Read(t) => Composed(t)
  {
    hide ValidInfos, ReadSensor, Refreshed;
  }

  // ----- Reading a temperature -----

  /** A read reports the scaled reading; a watched sensor stores and reports the severity that its hot side, its cold
      side and its references call for, or the emulated one. */
  lemma ReadReports(infos: Infos, ranks: Ranks, w: World, env: Env, now: int, name: string, force: bool)
    requires ValidInfos(infos, ranks) && ValidStatuses(infos, w.statuses) && name in infos
    ensures ReferencesBelow(infos, ranks, name)
    ensures var (w', o) := ReadTemp(infos, ranks, w, env, now, name, force);
            var (w1, reading) := ReadSensor(infos, ranks, w, env, now, name, force);
      match reading
      case Failed => o == ReadFailed
      case Collecting => o == UnderCollecting
      case Read(t) =>
        if t.NaN? then o == ReadFailed else
        var (w2, reference) := ReferenceSeverity(infos, ranks, w1, env, now, infos[name].references, NONE,
                                                 ranks.refs[name]);
        && o.Okay? && o.value == t.value * infos[name].multiplier
        && if !infos[name].isWatch then o.severity == NONE && w' == w2 else
           var st, st' := w2.statuses[name], w'.statuses[name];
           && o.severity == st'.severity
           && Covers(o.severity, st'.prevHot, st'.prevCold, reference, EmulatedSeverity(st))
           && (st'.severity != st.severity ==> st'.pendingNotification)
  {
    hide ValidInfos, ReadSensor, ReferenceSeverity, Covers, Classify, Refreshed, NextHot, NextCold;
    ReferencesRanked(infos, ranks, name);
    var (w1, reading) := ReadSensor(infos, ranks, w, env, now, name, force);
    if reading.Read? && reading.temp.Num? {
      var (w2, reference) := ReferenceSeverity(infos, ranks, w1, env, now, infos[name].references, NONE,
                                               ranks.refs[name]);
      UpdateCovers(infos[name], w2.statuses[name], reference, infos[name].Scale(reading.temp.value));
    }
  }

  /** The outcomes of the references, one after the other, up to the first that cannot be read. */
  ghost function Outcomes(infos: Infos, ranks: Ranks, w: World, env: Env, now: int, refs: seq<string>,
                          bound: nat): seq<Outcome>
    requires ValidInfos(infos, ranks) && ValidStatuses(infos, w.statuses)
    requires forall n | n in refs :: n in infos && ranks.refs[n] < bound
    decreases |refs|
  {
    if refs == [] then [] else
    assert refs[0] in refs;
    var (w1, o) := ReadTemp(infos, ranks, w, env, now, refs[0], false);
    if !o.Okay? then [o] else [o] + Outcomes(infos, ranks, w1, env, now, refs[1..], bound)
  }

  /** The reference severity is the severity of one of the references and at least that of each, when all of them can
      be read, and NONE otherwise. */
  lemma {:induction false} ReferenceAttained(infos: Infos, ranks: Ranks, w: World, env: Env, now: int,
                                             refs: seq<string>, worst: Severity, bound: nat)
    requires ValidInfos(infos, ranks) && ValidStatuses(infos, w.statuses)
    requires forall n | n in refs :: n in infos && ranks.refs[n] < bound
    ensures var os := Outcomes(infos, ranks, w, env, now, refs, bound);
            var severity := ReferenceSeverity(infos, ranks, w, env, now, refs, worst, bound).1;
      if exists o :: o in os && !o.Okay? then severity == NONE else
      && |os| == |refs| && severity >= worst
      && (forall o | o in os && o.Okay? :: o.severity <= severity)
      && (severity == worst || exists o :: o in os && o.Okay? && o.severity == severity)
    decreases |refs|
  {
    hide ValidInfos, ReadTemp;
    if refs != [] {
      assert refs[0] in refs;
      var (w1, o) := ReadTemp(infos, ranks, w, env, now, refs[0], false);
      var os := Outcomes(infos, ranks, w, env, now, refs, bound);
      if o.Okay? {
        var next := MaxSeverity(worst, o.severity);
        ReferenceAttained(infos, ranks, w1, env, now, refs[1..], next, bound);
        var rest := Outcomes(infos, ranks, w1, env, now, refs[1..], bound);
        assert os == [o] + rest;
        assert forall x :: x in os <==> x == o || x in rest;
      } else {
        assert o in os;
      }
    }
  }

  // ----- Emulation, read back -----

  /** While a temperature is emulated every read of the target returns it. */
  lemma EmulatedTempReads(infos: Infos, ranks: Ranks, w: World, env: Env, now: int, target: string, temp: Float,
                          maxThrottling: bool, force: bool)
    requires ValidInfos(infos, ranks) && ValidStatuses(infos, w.statuses) && target in infos
    ensures var after := w.(statuses := Emulate(infos, w.statuses, target, Emulated(temp, -1), maxThrottling));
      && after.statuses[target].override == Override(Emulated(temp, -1), maxThrottling, true)
      && ReadSensor(infos, ranks, after, env, now, target, force) == (after, Read(temp))
  {
    hide Compose, Store, Dependents;
  }

  /** While a severity is emulated a read reports it, with the value of its hot threshold. */
  lemma EmulatedSeverityReads(infos: Infos, ranks: Ranks, w: World, env: Env, now: int, target: string,
                              severity: Severity, maxThrottling: bool, force: bool)
    requires ValidInfos(infos, ranks) && ValidStatuses(infos, w.statuses) && target in infos
    requires infos[target].hot[severity].Num?
    ensures var emul := Emulated(Unscale(infos[target], severity), severity);
            var after := w.(statuses := Emulate(infos, w.statuses, target, emul, maxThrottling));
            ReadTemp(infos, ranks, after, env, now, target, force).1
            == Okay(infos[target].hot[severity].value, if infos[target].isWatch then severity else NONE)
  {
    hide ValidInfos, Compose, Store, Dependents, ReferenceSeverity, Covers, ReadTemp, Refreshed;
    ReferencesRanked(infos, ranks, target);
    var info, emul := infos[target], Emulated(Unscale(infos[target], severity), severity);
    var after := w.(statuses := Emulate(infos, w.statuses, target, emul, maxThrottling));
    assert ReadSensor(infos, ranks, after, env, now, target, force) == (after, Read(emul.temp));
    ReadReports(infos, ranks, after, env, now, target, force);
    ReferencesKeep(infos, ranks, after, env, now, info.references, NONE, ranks.refs[target], target);
    Rescale(info.hot[severity].value, info.multiplier);
    CoversEmulated();
  }

  lemma CoversEmulated()
    ensures forall s, h, c, r, e | e >= 0 && Covers(s, h, c, r, e) :: s == e
  {
  }

  lemma Rescale(h: real, m: real)
    requires m != 0.0
    ensures h / m * m == h
  {
  }

  /** The target of an emulation carries it; the target and everything that reads it, directly or not, is flagged for an
      update with the throttling request; no other sensor changes. */
  lemma EmulateFlags(infos: Infos, statuses: Statuses, target: string, emul: Emulation, maxThrottling: bool, n: string)
    requires ValidStatuses(infos, statuses) && target in infos && n in infos
    ensures var st, st' := statuses[n], Emulate(infos, statuses, target, emul, maxThrottling)[n];
      && st' == st.(override := st'.override)
      && st'.override.emul == (if n == target then emul else st.override.emul)
      && if n == target || Depends(infos, n, target)
         then st'.override.pendingUpdate && st'.override.maxThrottling == maxThrottling
         else st' == st
  {
    hide Depends;
  }

  /** Setting or clearing an emulation reaches the next round: the visit of the target, and of every watched sensor
      computed from it, reads the sensor whatever its delay. */
  lemma EmulationIsVisited(infos: Infos, ranks: Ranks, statuses: Statuses, target: string, emul: Emulation,
                           maxThrottling: bool, r: Round, env: Env, uevents: map<string, Float>, now: int, n: string)
    requires ValidInfos(infos, ranks) && ValidStatuses(infos, statuses) && target in infos
    requires n in infos && infos[n].isWatch && (n == target || Depends(infos, n, target))
    requires ValidStatuses(infos, r.world.statuses)
    requires r.world.statuses[n] == Emulate(infos, statuses, target, emul, maxThrottling)[n]
    ensures var r' := Visit(infos, ranks, r, env, uevents, now, n);
            n in r'.failed || r'.world.statuses[n].lastUpdate == At(now)
  {
    hide Visit, Emulate, Depends, ValidInfos;
    EmulateFlags(infos, statuses, target, emul, maxThrottling, n);
    VisitReads(infos, ranks, r, env, uevents, now, n);
  }

  /** Clearing everything leaves no emulation, and each watched sensor is read at its next visit. */
  lemma ClearIsVisited(infos: Infos, ranks: Ranks, statuses: Statuses, r: Round, env: Env,
                       uevents: map<string, Float>, now: int, n: string)
    requires ValidInfos(infos, ranks) && ValidStatuses(infos, statuses) && n in infos && infos[n].isWatch
    requires ValidStatuses(infos, r.world.statuses) && r.world.statuses[n] == ClearEverything(statuses)[n]
    ensures r.world.statuses[n].override.emul == NotEmulated
    ensures var r' := Visit(infos, ranks, r, env, uevents, now, n);
            n in r'.failed || r'.world.statuses[n].lastUpdate == At(now)
  {
    hide Visit, ValidInfos;
    VisitReads(infos, ranks, r, env, uevents, now, n);
  }

  // ----- Uevents -----

  /** After the uevents of a round are stored, a sensor whose uevent carries a number reads as that number within its
      time resolution, unless it is emulated; every other sensor is as before. */
  lemma UeventsRead(infos: Infos, ranks: Ranks, w: World, env: Env, uevents: map<string, Float>, now: int, later: int,
                    name: string)
    requires ValidInfos(infos, ranks) && ValidStatuses(infos, w.statuses) && name in infos
    requires later - now < infos[name].smoothing.timeResolution
    ensures var after := w.(statuses := StoreUevents(w.statuses, uevents, now));
      if name in uevents && uevents[name].Num? then
        !w.statuses[name].override.emul.Emulated? ==>
          ReadSensor(infos, ranks, after, env, later, name, false) == (after, Read(uevents[name]))
      else after.statuses[name] == w.statuses[name]
  {
    hide Compose, Store, LinksBelow, ReferencesBelow, TriggersExist;
  }

  /** A uevent without a number makes the visit of a physical sensor read its file, however fresh its sample is. */
  lemma EmptyUeventBypasses(infos: Infos, ranks: Ranks, r: Round, env: Env, uevents: map<string, Float>, now: int,
                            name: string)
    requires ValidInfos(infos, ranks) && ValidStatuses(infos, r.world.statuses) && name in infos && infos[name].isWatch
    requires infos[name].composition.Physical? && name in uevents && uevents[name].NaN?
    requires r.world.statuses[name].lastUpdate.At? && r.world.statuses[name].override.emul.NotEmulated?
    ensures var info, st, r' := infos[name], r.world.statuses[name], Visit(infos, ranks, r, env, uevents, now, name);
      match env.file(name)
      case Composed(Num(t)) =>
        var smoothed := ReadSample(info.smoothing, st.cached, NotEmulated, now, true, Composed(Num(t))).0.temp;
        && r'.failed == r.failed && smoothed.Num?
        && r'.world.statuses[name].prevHot
           == NextHot(info.hot, info.hotHyst, st.prevHot, info.Scale(smoothed.value))
      case _ => r'.failed == r.failed + {name}
  {
    hide ReadTemp, ReadSample, LinksBelow, ReferencesBelow, NextHot, NextCold, Classify, SleepBefore;
    assert TriggersExist(infos, name);
    ForcedRead(infos, ranks, Taken(infos, r.world, name), env, now, name);
  }

  /** A forced read of a physical sensor takes what its file gives now. */
  lemma ForcedRead(infos: Infos, ranks: Ranks, w: World, env: Env, now: int, name: string)
    requires ValidInfos(infos, ranks) && ValidStatuses(infos, w.statuses) && name in infos && infos[name].isWatch
    requires infos[name].composition.Physical? && w.statuses[name].override.emul.NotEmulated?
    ensures var info, st, (w', o) := infos[name], w.statuses[name], ReadTemp(infos, ranks, w, env, now, name, true);
      match env.file(name)
      case Composed(Num(t)) =>
        var smoothed := ReadSample(info.smoothing, st.cached, NotEmulated, now, true, Composed(Num(t))).0.temp;
        && o.Okay? && smoothed.Num?
        && w'.statuses[name].prevHot == NextHot(info.hot, info.hotHyst, st.prevHot, info.Scale(smoothed.value))
      case _ => !o.Okay?
  {
    hide ValidInfos, ReadSensor, ReadSample, NextHot, NextCold, Classify, ReferenceSeverity, Refreshed;
    ReferencesRanked(infos, ranks, name);
    ForcedSensor(infos, ranks, w, env, now, name);
    var (w1, reading) := ReadSensor(infos, ranks, w, env, now, name, true);
    if reading.Read? && reading.temp.Num? {
      ReferencesKeep(infos, ranks, w1, env, now, infos[name].references, NONE, ranks.refs[name], name);
    }
  }

  lemma ForcedSensor(infos: Infos, ranks: Ranks, w: World, env: Env, now: int, name: string)
    requires ValidInfos(infos, ranks) && ValidStatuses(infos, w.statuses) && name in infos
    requires infos[name].composition.Physical? && w.statuses[name].override.emul.NotEmulated?
    ensures var (w', reading) := ReadSensor(infos, ranks, w, env, now, name, true);
            var (sample, read) :=
              ReadSample(infos[name].smoothing, w.statuses[name].cached, NotEmulated, now, true, env.file(name));
      && reading == read && w'.statuses[name] == w.statuses[name].(cached := sample)
      && match env.file(name)
         case Composed(Num(_)) => sample.temp.Num? && read == Read(sample.temp)
         case _ => read.Read? ==> read.temp.NaN?
  {
    hide ValidInfos;
  }
}
