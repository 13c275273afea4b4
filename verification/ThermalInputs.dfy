/** Which readings an emulation can change, and which sensors it flags because of that. */
module ThermalInputs {
  import opened ThermalTypes
  import opened ThermalSample
  import opened ThermalFormula
  import opened ThermalWorld
  import opened ThermalEmulation

  /** b is composed from a: as a linked sensor, as a coefficient or as the backup, watched or not. */
  predicate Feeds(infos: Infos, a: string, b: string) {
    && b in infos && infos[b].composition.Virtual?
    && var c := infos[b].composition;
       ListsSensor(c.linked, a) || ListsSensor(c.coefficients, a) || c.backup == a != ""
  }

  predicate ListsSensor(sources: seq<Source>, name: string) {
    Source(name, true) in sources
  }

  lemma FeedsAscends(infos: Infos, ranks: Ranks, a: string, b: string)
    requires ValidInfos(infos, ranks) && a in infos && Feeds(infos, a, b)
    ensures ranks.links[a] < ranks.links[b]
  {
    assert LinksBelow(infos, ranks, b);
    assert Below(infos, ranks, a, ranks.links[b]);
  }

  /** Reading b can lead to reading a. */
  ghost predicate Reads(infos: Infos, ranks: Ranks, b: string, a: string)
    requires ValidInfos(infos, ranks) && b in infos
    decreases ranks.links[b]
  {
    exists u | u in infos && Feeds(infos, u, b) && ranks.links[u] < ranks.links[b] ::
      u == a || Reads(infos, ranks, u, a)
  }

  lemma ReadsFirst(infos: Infos, ranks: Ranks, b: string, u: string, a: string)
    requires ValidInfos(infos, ranks) && b in infos && u in infos && Feeds(infos, u, b)
    requires u == a || Reads(infos, ranks, u, a)
    ensures Reads(infos, ranks, b, a)
  {
    FeedsAscends(infos, ranks, u, b);
  }

  lemma {:induction false} ReadsOneMore(infos: Infos, ranks: Ranks, b: string, u: string, a: string)
    requires ValidInfos(infos, ranks) && b in infos && u in infos && a in infos
    requires Reads(infos, ranks, b, u) && Feeds(infos, a, u)
    ensures Reads(infos, ranks, b, a)
    decreases ranks.links[b]
  {
    var v :| v in infos && Feeds(infos, v, b) && ranks.links[v] < ranks.links[b]
        && (v == u || Reads(infos, ranks, v, u));
    if v == u {
      ReadsFirst(infos, ranks, u, a, a);
    } else {
      ReadsOneMore(infos, ranks, v, u, a);
    }
    ReadsFirst(infos, ranks, b, v, a);
  }

  // ----- What cannot change -----

  /** Everything a sensor of the set is composed from belongs to the set. */
  ghost predicate Closed(infos: Infos, among: set<string>) {
    forall a, b | b in among && a in infos && Feeds(infos, a, b) :: a in among
  }

  /** Two tables with the same samples and emulations for the set. */
  predicate Agree(among: set<string>, v: Statuses, w: Statuses) {
    forall n | n in among && n in v && n in w :: v[n].cached == w[n].cached && v[n].override.emul == w[n].override.emul
  }

  lemma {:induction false} SameReading(infos: Infos, ranks: Ranks, v: World, w: World, env: Env, now: int, name: string,
                                       force: bool, among: set<string>)
    requires ValidInfos(infos, ranks) && ValidStatuses(infos, v.statuses) && ValidStatuses(infos, w.statuses)
    requires name in infos && name in among && Closed(infos, among) && Agree(among, v.statuses, w.statuses)
    ensures var rv := ReadSensor(infos, ranks, v, env, now, name, force);
            var rw := ReadSensor(infos, ranks, w, env, now, name, force);
            rv.1 == rw.1 && Agree(among, rv.0.statuses, rw.0.statuses)
    decreases ranks.links[name], 3, 0
  {
    hide Compose, LinksBelow, ReferencesBelow, TriggersExist, Store, Closed, Refreshed;
    SameRaw(infos, ranks, v, w, env, now, name, force, among);
    var (v1, raw) := Compose(infos, ranks, v, env, now, name, force);
    var (w1, _) := Compose(infos, ranks, w, env, now, name, force);
    SameStore(infos, v1, w1, now, name, force, raw, among);
  }

  lemma SameStore(infos: Infos, v: World, w: World, now: int, name: string, force: bool, raw: Raw, among: set<string>)
    requires ValidStatuses(infos, v.statuses) && ValidStatuses(infos, w.statuses)
    requires name in infos && name in among && Agree(among, v.statuses, w.statuses)
    ensures var rv, rw := Store(infos, v, now, name, force, raw), Store(infos, w, now, name, force, raw);
            rv.1 == rw.1 && Agree(among, rv.0.statuses, rw.0.statuses)
  {
    hide ReadSample;
  }

  lemma {:induction false} SameRaw(infos: Infos, ranks: Ranks, v: World, w: World, env: Env, now: int, name: string,
                                   force: bool, among: set<string>)
    requires ValidInfos(infos, ranks) && ValidStatuses(infos, v.statuses) && ValidStatuses(infos, w.statuses)
    requires name in infos && name in among && Closed(infos, among) && Agree(among, v.statuses, w.statuses)
    ensures var rv := Compose(infos, ranks, v, env, now, name, force);
            var rw := Compose(infos, ranks, w, env, now, name, force);
            rv.1 == rw.1 && Agree(among, rv.0.statuses, rw.0.statuses)
    decreases ranks.links[name], 2, 0
  {
    hide ValidInfos, ReadSources, Evaluate, Closed, Agree, Refreshed, Below, SourcesBelow, Inside;
    InputsInside(infos, ranks, name, among);
    var c, bound := infos[name].composition, ranks.links[name];
    if c.Physical? { return; }
    SameInputs(infos, ranks, v, w, env, now, c.linked, force, [], bound, among);
    var (v1, rs) := ReadSources(infos, ranks, v, env, now, c.linked, force, [], bound);
    var (w1, _) := ReadSources(infos, ranks, w, env, now, c.linked, force, [], bound);
    if rs.Values? { SameFormula(infos, ranks, v1, w1, env, now, name, force, rs.values, among); }
  }

  lemma SameFormula(infos: Infos, ranks: Ranks, v: World, w: World, env: Env, now: int, name: string, force: bool,
                    readings: seq<real>, among: set<string>)
    requires ValidInfos(infos, ranks) && ValidStatuses(infos, v.statuses) && ValidStatuses(infos, w.statuses)
    requires name in infos && name in among && Closed(infos, among) && Agree(among, v.statuses, w.statuses)
    requires infos[name].composition.Virtual? && |readings| == |infos[name].composition.linked|
    ensures var rv := Evaluate(infos, ranks, v, env, now, name, force, readings);
            var rw := Evaluate(infos, ranks, w, env, now, name, force, readings);
            rv.1 == rw.1 && Agree(among, rv.0.statuses, rw.0.statuses)
    decreases ranks.links[name], 1, |infos[name].composition.coefficients| + 2
  {
    hide ValidInfos, Weigh, Backup, Closed, Agree, Refreshed;
    SameWeigh(infos, ranks, v, w, env, now, name, force, readings, among);
    SameBackup(infos, ranks, v, w, env, now, name, force, among);
  }

  lemma InputsInside(infos: Infos, ranks: Ranks, name: string, among: set<string>)
    requires ValidInfos(infos, ranks) && name in infos && name in among && Closed(infos, among)
    ensures infos.Keys <= ranks.links.Keys
    ensures infos[name].composition.Virtual? ==>
      var c, bound := infos[name].composition, ranks.links[name];
      && |c.linked| == |c.coefficients|
      && SourcesBelow(infos, ranks, c.linked, bound) && Inside(infos, c.linked, among)
      && SourcesBelow(infos, ranks, c.coefficients, bound) && Inside(infos, c.coefficients, among)
      && Below(infos, ranks, c.backup, bound) && (c.backup != "" && c.backup in infos ==> c.backup in among)
  {
    assert LinksBelow(infos, ranks, name);
  }

  lemma SameWeigh(infos: Infos, ranks: Ranks, v: World, w: World, env: Env, now: int, name: string, force: bool,
                  readings: seq<real>, among: set<string>)
    requires ValidInfos(infos, ranks) && ValidStatuses(infos, v.statuses) && ValidStatuses(infos, w.statuses)
    requires name in infos && name in among && Closed(infos, among) && Agree(among, v.statuses, w.statuses)
    requires infos[name].composition.Virtual? && |readings| == |infos[name].composition.linked|
    ensures var rv := Weigh(infos, ranks, v, env, now, name, force, readings);
            var rw := Weigh(infos, ranks, w, env, now, name, force, readings);
            rv.1 == rw.1 && Agree(among, rv.0.statuses, rw.0.statuses)
    decreases ranks.links[name], 1, |infos[name].composition.coefficients| + 1
  {
    hide ValidInfos, ReadSources, Combine, Closed, Agree, Refreshed, Below, SourcesBelow, Inside;
    InputsInside(infos, ranks, name, among);
    SameInputs(infos, ranks, v, w, env, now, infos[name].composition.coefficients, force, [], ranks.links[name], among);
  }

  lemma SameBackup(infos: Infos, ranks: Ranks, v: World, w: World, env: Env, now: int, name: string, force: bool,
                   among: set<string>)
    requires ValidInfos(infos, ranks) && ValidStatuses(infos, v.statuses) && ValidStatuses(infos, w.statuses)
    requires name in infos && name in among && Closed(infos, among) && Agree(among, v.statuses, w.statuses)
    requires infos[name].composition.Virtual?
    ensures var rv := Backup(infos, ranks, v, env, now, name, force);
            var rw := Backup(infos, ranks, w, env, now, name, force);
            rv.1 == rw.1 && Agree(among, rv.0.statuses, rw.0.statuses)
    decreases ranks.links[name], 1, 0
  {
    hide ValidInfos, ReadData, Closed, Agree, Refreshed, Below;
    InputsInside(infos, ranks, name, among);
    var backup := infos[name].composition.backup;
    if backup != "" { SameData(infos, ranks, v, w, env, now, backup, force, ranks.links[name], among); }
  }

  ghost predicate Inside(infos: Infos, sources: seq<Source>, among: set<string>) {
    forall s | s in sources && s.isSensor && s.name in infos :: s.name in among
  }

  lemma {:induction false} SameData(infos: Infos, ranks: Ranks, v: World, w: World, env: Env, now: int, name: string,
                                    force: bool, bound: nat, among: set<string>)
    requires ValidInfos(infos, ranks) && ValidStatuses(infos, v.statuses) && ValidStatuses(infos, w.statuses)
    requires Below(infos, ranks, name, bound) && (name in infos ==> name in among)
    requires Closed(infos, among) && Agree(among, v.statuses, w.statuses)
    ensures var rv := ReadData(infos, ranks, v, env, now, name, force, bound);
            var rw := ReadData(infos, ranks, w, env, now, name, force, bound);
            rv.1 == rw.1 && Agree(among, rv.0.statuses, rw.0.statuses)
    decreases bound, 0, 0
  {
    hide ValidInfos, ReadSensor, Closed, Agree, Refreshed;
    if name in infos { SameReading(infos, ranks, v, w, env, now, name, force, among); }
  }

  lemma {:induction false} SameInputs(infos: Infos, ranks: Ranks, v: World, w: World, env: Env, now: int,
                                      sources: seq<Source>, force: bool, values: seq<real>, bound: nat,
                                      among: set<string>)
    requires ValidInfos(infos, ranks) && ValidStatuses(infos, v.statuses) && ValidStatuses(infos, w.statuses)
    requires SourcesBelow(infos, ranks, sources, bound) && Inside(infos, sources, among)
    requires Closed(infos, among) && Agree(among, v.statuses, w.statuses)
    ensures var rv := ReadSources(infos, ranks, v, env, now, sources, force, values, bound);
            var rw := ReadSources(infos, ranks, w, env, now, sources, force, values, bound);
            rv.1 == rw.1 && Agree(among, rv.0.statuses, rw.0.statuses)
    decreases bound, 1, |sources|
  {
    hide ReadSource, Closed, Agree, Refreshed, LinksBelow, ReferencesBelow, TriggersExist;
    if sources == [] { return; }
    assert sources[0] in sources && infos.Keys <= ranks.links.Keys;
    SameSource(infos, ranks, v, w, env, now, sources[0], force, bound, among);
    var (v1, raw) := ReadSource(infos, ranks, v, env, now, sources[0], force, bound);
    var (w1, _) := ReadSource(infos, ranks, w, env, now, sources[0], force, bound);
    if raw.Composed? && raw.temp.Num? {
      SameInputs(infos, ranks, v1, w1, env, now, sources[1..], force, values + [raw.temp.value], bound, among);
    }
  }

  lemma SameSource(infos: Infos, ranks: Ranks, v: World, w: World, env: Env, now: int, source: Source, force: bool,
                   bound: nat, among: set<string>)
    requires ValidInfos(infos, ranks) && ValidStatuses(infos, v.statuses) && ValidStatuses(infos, w.statuses)
    requires Below(infos, ranks, source.name, bound) && Inside(infos, [source], among)
    requires Closed(infos, among) && Agree(among, v.statuses, w.statuses)
    ensures var rv := ReadSource(infos, ranks, v, env, now, source, force, bound);
            var rw := ReadSource(infos, ranks, w, env, now, source, force, bound);
            rv.1 == rw.1 && Agree(among, rv.0.statuses, rw.0.statuses)
    decreases bound, 0, 1
  {
    assert source in [source];
    if source.isSensor { SameData(infos, ranks, v, w, env, now, source.name, force, bound, among); }
    hide ValidInfos, ReadData, Closed, Agree, Refreshed, Below;
  }

  /** An emulation changes no reading of a sensor that does not lead to the target. */
  lemma EmulationIsLocal(infos: Infos, ranks: Ranks, w: World, env: Env, now: int, name: string, force: bool,
                         target: string, emul: Emulation, maxThrottling: bool)
    requires ValidInfos(infos, ranks) && ValidStatuses(infos, w.statuses) && name in infos && target in infos
    requires name != target && !Reads(infos, ranks, name, target)
    ensures var after := w.(statuses := Emulate(infos, w.statuses, target, emul, maxThrottling));
            ReadSensor(infos, ranks, w, env, now, name, force).1
                == ReadSensor(infos, ranks, after, env, now, name, force).1
  {
    hide LinksBelow, ReferencesBelow, TriggersExist, Refreshed, ReadSensor, Reads, Emulate, Closed, Agree;
    var among := Unaffected(infos, ranks, target);
    var after := w.(statuses := Emulate(infos, w.statuses, target, emul, maxThrottling));
    NotReadingIsClosed(infos, ranks, target);
    EmulateAgrees(infos, w.statuses, target, emul, maxThrottling, among);
    SameReading(infos, ranks, w, after, env, now, name, force, among);
  }

  /** An emulation touches samples nowhere and emulations only at its target. */
  lemma EmulateAgrees(infos: Infos, statuses: Statuses, target: string, emul: Emulation, maxThrottling: bool,
                      among: set<string>)
    requires ValidStatuses(infos, statuses) && target in infos && target !in among
    ensures var after := Emulate(infos, statuses, target, emul, maxThrottling);
            ValidStatuses(infos, after) && Agree(among, statuses, after)
  {
    hide Dependents;
  }

  /** The sensors whose reading cannot lead to the target. */
  ghost function Unaffected(infos: Infos, ranks: Ranks, target: string): set<string>
    requires ValidInfos(infos, ranks)
  {
    set n | n in infos && n != target && !Reads(infos, ranks, n, target)
  }

  lemma NotReadingIsClosed(infos: Infos, ranks: Ranks, target: string)
    requires ValidInfos(infos, ranks)
    ensures Closed(infos, Unaffected(infos, ranks, target))
  {
    hide Reads, Feeds;
    forall a, b | b in Unaffected(infos, ranks, target) && a in infos && Feeds(infos, a, b)
      ensures a in Unaffected(infos, ranks, target)
    {
      if a == target || Reads(infos, ranks, a, target) { ReadsFirst(infos, ranks, b, a, target); }
    }
  }

  // ----- What is flagged -----

  predicate WatchedVirtual(infos: Infos, b: string) {
    b in infos && infos[b].isWatch && infos[b].composition.Virtual?
  }

  /** Every watched virtual sensor whose reading can lead to some sensor is flagged with it. */
  ghost predicate FlagsAll(infos: Infos, ranks: Ranks)
    requires ValidInfos(infos, ranks)
  {
    forall b, a | WatchedVirtual(infos, b) && a in infos && Reads(infos, ranks, b, a) :: Depends(infos, b, a)
  }

  /** The same, one link at a time: an input of a watched virtual sensor is flagged through it, and so is every input
      of an unwatched sensor it reads. */
  ghost predicate FlagsLinks(infos: Infos, ranks: Ranks)
    requires ValidInfos(infos, ranks)
  {
    && (forall b, a | WatchedVirtual(infos, b) && a in infos && Feeds(infos, a, b) :: Depends(infos, b, a))
    && forall b, u, a | WatchedVirtual(infos, b) && u in infos && !WatchedVirtual(infos, u) && a in infos
                        && Reads(infos, ranks, b, u) && Feeds(infos, a, u) :: Depends(infos, b, a)
  }

  lemma DependsTrans(infos: Infos, c: string, b: string, a: string)
    requires Depends(infos, c, b) && Depends(infos, b, a)
    ensures Depends(infos, c, a)
  {
    var p :| Chain(infos, p) && p[0] == b && p[|p| - 1] == c;
    var q :| Chain(infos, q) && q[0] == a && q[|q| - 1] == b;
    var path := q + p[1..];
    forall k | 0 <= k < |path| - 1 ensures Direct(infos, path[k], path[k + 1]) {
      if k < |q| - 1 {
        assert Direct(infos, q[k], q[k + 1]);
      } else {
        assert Direct(infos, p[k - (|q| - 1)], p[k - (|q| - 1) + 1]);
      }
    }
    assert Chain(infos, path);
  }

  lemma {:induction false} FlaggedBelow(infos: Infos, ranks: Ranks, b: string, n: string, a: string)
    requires ValidInfos(infos, ranks) && FlagsLinks(infos, ranks) && WatchedVirtual(infos, b)
    requires n in infos && a in infos && Reads(infos, ranks, n, a)
    requires n == b || (Reads(infos, ranks, b, n) && Depends(infos, b, n))
    ensures Depends(infos, b, a)
    decreases ranks.links[n]
  {
    var u :| u in infos && Feeds(infos, u, n) && ranks.links[u] < ranks.links[n]
        && (u == a || Reads(infos, ranks, u, a));
    if n == b {
      ReadsFirst(infos, ranks, b, u, u);
    } else {
      ReadsOneMore(infos, ranks, b, n, u);
      if WatchedVirtual(infos, n) { DependsTrans(infos, b, n, u); }
    }
    if u != a { FlaggedBelow(infos, ranks, b, u, a); }
  }

  /** All affected watched sensors are flagged, whatever the target, exactly when no link is lost at an unwatched
      virtual sensor or at an input that is only a coefficient or a backup. */
  lemma FlagsAllExactly(infos: Infos, ranks: Ranks)
    requires ValidInfos(infos, ranks)
    ensures FlagsAll(infos, ranks) <==> FlagsLinks(infos, ranks)
  {
    if FlagsLinks(infos, ranks) {
      forall b, a | WatchedVirtual(infos, b) && a in infos && Reads(infos, ranks, b, a) ensures Depends(infos, b, a) {
        FlaggedBelow(infos, ranks, b, b, a);
      }
    }
    if FlagsAll(infos, ranks) {
      forall b, a | WatchedVirtual(infos, b) && a in infos && Feeds(infos, a, b) ensures Depends(infos, b, a) {
        ReadsFirst(infos, ranks, b, a, a);
      }
      forall b, u, a | WatchedVirtual(infos, b) && u in infos && !WatchedVirtual(infos, u) && a in infos
                       && Reads(infos, ranks, b, u) && Feeds(infos, a, u) ensures Depends(infos, b, a) {
        ReadsOneMore(infos, ranks, b, u, a);
      }
    }
  }

  // ----- A link is lost -----

  /** n copies the reading of its one input: a weighted average with the constant one, without smoothing. */
  predicate Copies(infos: Infos, n: string, input: string) {
    && n in infos && input in infos && infos[n].smoothing.stepRatio.NaN?
    && infos[n].composition.Virtual?
    && var c := infos[n].composition;
       && c.linked == [Source(input, true)] && c.coefficients == [Source("1", false)]
       && c.formula == WeightedAvg && c.offset == 0.0
  }

  lemma CopyReads(infos: Infos, ranks: Ranks, w: World, env: Env, now: int, n: string, input: string, v: real)
    requires ValidInfos(infos, ranks) && ValidStatuses(infos, w.statuses) && Copies(infos, n, input)
    requires w.statuses[n].override.emul.NotEmulated? && env.other("1") == Composed(Num(1.0))
    requires ReadSensor(infos, ranks, w, env, now, input, true).1 == Read(Num(v))
    ensures ReadSensor(infos, ranks, w, env, now, n, true).1 == Read(Num(v))
  {
    hide LinksBelow, ReferencesBelow, TriggersExist, Refreshed, Combine, ReadSources;
    var c, bound := infos[n].composition, ranks.links[n];
    InputsInside(infos, ranks, n, infos.Keys);
    OneInput(infos, ranks, w, env, now, c.linked[0], true, bound, v);
    var w1 := ReadSources(infos, ranks, w, env, now, c.linked, true, [], bound).0;
    OneInput(infos, ranks, w1, env, now, c.coefficients[0], true, bound, 1.0);
    CombineOne(v);
    assert Weigh(infos, ranks, w1, env, now, n, true, [v]).1 == Composed(Num(v));
    assert Compose(infos, ranks, w, env, now, n, true).1 == Composed(Num(v));
  }

  lemma OneInput(infos: Infos, ranks: Ranks, w: World, env: Env, now: int, source: Source, force: bool, bound: nat,
                 v: real)
    requires ValidInfos(infos, ranks) && ValidStatuses(infos, w.statuses) && SourcesBelow(infos, ranks, [source], bound)
    requires source in [source] && ReadSource(infos, ranks, w, env, now, source, force, bound).1 == Composed(Num(v))
    ensures ReadSources(infos, ranks, w, env, now, [source], force, [], bound).1 == Values([v])
  {
    hide ValidInfos, ReadSource, Refreshed;
    var w1 := ReadSource(infos, ranks, w, env, now, source, force, bound).0;
    assert [source][1..] == [] && [] + [v] == [v];
    assert ReadSources(infos, ranks, w1, env, now, [], force, [v], bound).1 == Values([v]);
  }

  lemma CombineOne(v: real)
    ensures Combine(WeightedAvg, [v], [1.0]) == v
  {
    assert Combine(WeightedAvg, [], []) == 0.0;
    CombineNext(WeightedAvg, [v], [], 1.0);
    assert [v][..1] == [v] && [] + [1.0] == [1.0] && [v][..0] == [];
  }

  lemma DependsLast(infos: Infos, c: string, a: string)
    requires Depends(infos, c, a)
    ensures exists p :: Direct(infos, p, c) && (p == a || Depends(infos, p, a))
  {
    var path :| Chain(infos, path) && path[0] == a && path[|path| - 1] == c;
    var last := |path| - 2;
    assert Direct(infos, path[last], path[last + 1]);
    if last > 0 {
      var front := path[..last + 1];
      forall k | 0 <= k < |front| - 1 ensures Direct(infos, front[k], front[k + 1]) {
        assert Direct(infos, path[k], path[k + 1]);
      }
      assert Chain(infos, front);
    }
  }

  /** Behind an unwatched virtual sensor the flags stop while the readings go on: a watched sensor that copies an
      unwatched copy of the target is left alone by every emulation and reads the emulated value. */
  lemma UnflaggedButChanged(infos: Infos, ranks: Ranks, w: World, env: Env, now: int, target: string, middle: string,
                            last: string, x: real, maxThrottling: bool)
    requires ValidInfos(infos, ranks) && ValidStatuses(infos, w.statuses)
    requires Copies(infos, middle, target) && Copies(infos, last, middle) && env.other("1") == Composed(Num(1.0))
    requires !infos[middle].isWatch && infos[last].isWatch && middle != target && last != target
    requires w.statuses[middle].override.emul.NotEmulated? && w.statuses[last].override.emul.NotEmulated?
    ensures var after := w.(statuses := Emulate(infos, w.statuses, target, Emulated(Num(x), -1), maxThrottling));
      && after.statuses[last] == w.statuses[last]
      && ReadSensor(infos, ranks, after, env, now, last, true).1 == Read(Num(x))
  {
    hide LinksBelow, ReferencesBelow, TriggersExist, Refreshed, Compose, Depends;
    var after := w.(statuses := Emulate(infos, w.statuses, target, Emulated(Num(x), -1), maxThrottling));
    if Depends(infos, last, target) {
      DependsLast(infos, last, target);
      var p :| Direct(infos, p, last) && (p == target || Depends(infos, p, target));
      var s :| s in infos[last].composition.linked && s.name == p;
      assert p == middle;
      DependsLast(infos, middle, target);
      assert false;
    }
    assert ReadSensor(infos, ranks, after, env, now, target, true).1 == Read(Num(x));
    CopyReads(infos, ranks, after, env, now, middle, target, x);
    CopyReads(infos, ranks, after, env, now, last, middle, x);
  }
}
