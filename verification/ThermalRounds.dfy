/** Watcher rounds: when a sensor is read, how soon it is visited again, and what is announced. */
module ThermalRounds {
  import opened Wrappers
  import opened ThermalTypes
  import opened ThermalSample
  import opened ThermalWorld

  // ----- What a read leaves alone -----

  /** Apart from its sample the status is the same. */
  predicate OnlySample(w: World, w': World, name: string) {
    && name in w.statuses && name in w'.statuses
    && w'.statuses[name] == w.statuses[name].(cached := w'.statuses[name].cached)
  }

  lemma ReferencesRanked(infos: Infos, ranks: Ranks, name: string)
    requires ValidInfos(infos, ranks) && name in infos
    ensures infos.Keys <= ranks.refs.Keys && infos[name].multiplier != 0.0 && ReferencesBelow(infos, ranks, name)
  {
  }

  lemma SensorKeeps(infos: Infos, ranks: Ranks, w: World, env: Env, now: int, name: string, force: bool, other: string)
    requires ValidInfos(infos, ranks) && ValidStatuses(infos, w.statuses) && name in infos && other in infos
    ensures OnlySample(w, ReadSensor(infos, ranks, w, env, now, name, force).0, other)
    ensures ReadSensor(infos, ranks, w, env, now, name, force).0.log == w.log
  {
    hide ReadSensor, LinksBelow, ReferencesBelow, TriggersExist;
  }

  lemma {:induction false} ReadKeeps(infos: Infos, ranks: Ranks, w: World, env: Env, now: int, name: string,
                                     force: bool, other: string)
    requires ValidInfos(infos, ranks) && ValidStatuses(infos, w.statuses) && name in infos && other in infos
    requires other != name && ranks.refs[other] >= ranks.refs[name]
    ensures OnlySample(w, ReadTemp(infos, ranks, w, env, now, name, force).0, other)
    decreases ranks.refs[name], 1, 0
  {
    hide ValidInfos, ReadSensor, Classify, Refreshed;
    ReferencesRanked(infos, ranks, name);
    var (w1, reading) := ReadSensor(infos, ranks, w, env, now, name, force);
    SensorKeeps(infos, ranks, w, env, now, name, force, other);
    if reading.Read? && reading.temp.Num? {
      ReferencesKeep(infos, ranks, w1, env, now, infos[name].references, NONE, ranks.refs[name], other);
    }
  }

  lemma {:induction false} ReferencesKeep(infos: Infos, ranks: Ranks, w: World, env: Env, now: int, refs: seq<string>,
                                          worst: Severity, bound: nat, other: string)
    requires ValidInfos(infos, ranks) && ValidStatuses(infos, w.statuses) && other in infos
    requires (forall n | n in refs :: n in infos && ranks.refs[n] < bound) && ranks.refs[other] >= bound
    ensures OnlySample(w, ReferenceSeverity(infos, ranks, w, env, now, refs, worst, bound).0, other)
    decreases bound, 0, |refs|
  {
    hide ReadTemp, LinksBelow, TriggersExist, ReferencesBelow;
    if refs != [] {
      assert refs[0] in refs;
      ReadKeeps(infos, ranks, w, env, now, refs[0], false, other);
      var (w1, o) := ReadTemp(infos, ranks, w, env, now, refs[0], false);
      if o.Okay? {
        ReferencesKeep(infos, ranks, w1, env, now, refs[1..], MaxSeverity(worst, o.severity), bound, other);
      }
    }
  }

  /** A read of a sensor leaves its times and overrides alone, and its severity unless a notification is pending. */
  lemma ReadOwn(infos: Infos, ranks: Ranks, w: World, env: Env, now: int, name: string, force: bool)
    requires ValidInfos(infos, ranks) && ValidStatuses(infos, w.statuses) && name in infos
    ensures var st, st' := w.statuses[name], ReadTemp(infos, ranks, w, env, now, name, force).0.statuses[name];
      && st'.lastUpdate == st.lastUpdate && st'.override == st.override
      && (!st'.pendingNotification ==> st'.severity == st.severity && !st.pendingNotification)
  {
    hide ReadSensor, ReferenceSeverity, LinksBelow, TriggersExist, Classify;
    var (w1, reading) := ReadSensor(infos, ranks, w, env, now, name, force);
    SensorKeeps(infos, ranks, w, env, now, name, force, name);
    assert ReferencesBelow(infos, ranks, name);
    if reading.Read? && reading.temp.Num? {
      ReferencesKeep(infos, ranks, w1, env, now, infos[name].references, NONE, ranks.refs[name], name);
    }
  }

  // ----- Visits -----

  /** A trigger sensor of a virtual sensor is throttling. */
  predicate Triggered(infos: Infos, statuses: Statuses, name: string)
    requires name in infos
  {
    infos[name].composition.Virtual?
    && exists t | t in infos[name].composition.triggers && t in statuses :: statuses[t].severity != NONE
  }

  /** The delay before a visit: the passive one while the sensor or a trigger throttles. */
  function DelayBefore(infos: Infos, statuses: Statuses, name: string): int
    requires name in infos && name in statuses
  {
    if Triggered(infos, statuses, name) || statuses[name].severity != NONE then infos[name].smoothing.passiveDelay
    else infos[name].pollingDelay
  }

  /** A visit reads a watched sensor exactly when it was never read, an emulation was set or cleared, a uevent names it
      or one of its triggers, or, in a round without uevents, its delay has passed. A sensor that is read is fresh
      afterwards or counted as failed; one that is not keeps its status; the pending emulation is taken either way. */
  lemma VisitReads(infos: Infos, ranks: Ranks, r: Round, env: Env, uevents: map<string, Float>, now: int, name: string)
    requires ValidInfos(infos, ranks) && ValidStatuses(infos, r.world.statuses) && name in infos && infos[name].isWatch
    ensures var st, r' := r.world.statuses[name], Visit(infos, ranks, r, env, uevents, now, name);
            var st', c := r'.world.statuses[name], infos[name].composition;
            var named := if c.Virtual? then exists t | t in c.triggers :: t in uevents else name in uevents;
            var late := st.lastUpdate.At? && now - st.lastUpdate.ms > DelayBefore(infos, r.world.statuses, name);
      && !st'.override.pendingUpdate
      && if st.lastUpdate.Never? || st.override.pendingUpdate || (if uevents != map[] then named else late)
         then name in r'.failed || st'.lastUpdate == At(now)
         else st' == st && r'.failed == r.failed && r'.world == r.world && r'.temps == r.temps
  {
    hide ReadTemp, LinksBelow, ReferencesBelow;
    assert TriggersExist(infos, name);
    var w, st := Taken(infos, r.world, name), r.world.statuses[name];
    var force := Uncached(infos[name], st, uevents, name);
    ReadOwn(infos, ranks, w, env, now, name, force);
    SameDelay(infos, r.world.statuses, name);
    hide SleepBefore, DelayBefore, DelayBySeverity;
    assert TakePending(st) == st || st.override.pendingUpdate;
  }

  lemma SameDelay(infos: Infos, statuses: Statuses, name: string)
    requires ValidStatuses(infos, statuses) && name in infos && TriggersExist(infos, name)
    ensures SleepBefore(infos, statuses, name) == DelayBefore(infos, statuses, name)
  {
  }

  /** The visit promises to be back by the delay that fits what it leaves behind: the passive one whenever the sensor
      then throttles, and without a notification also when a trigger does. */
  lemma VisitDelay(infos: Infos, ranks: Ranks, r: Round, env: Env, uevents: map<string, Float>, now: int, name: string)
    requires ValidInfos(infos, ranks) && ValidStatuses(infos, r.world.statuses) && name in infos && infos[name].isWatch
    requires name !in Visit(infos, ranks, r, env, uevents, now, name).failed
    ensures var r' := Visit(infos, ranks, r, env, uevents, now, name);
            var st, passive := r'.world.statuses[name], infos[name].smoothing.passiveDelay;
            var delay := if st.severity != NONE || (r'.temps == r.temps && Triggered(infos, r.world.statuses, name))
                         then passive else infos[name].pollingDelay;
      && name in r'.used && r'.used[name] == delay
      && r'.sleep.Ms? && st.lastUpdate.At? && now + r'.sleep.ms <= st.lastUpdate.ms + delay
  {
    hide Refresh, LinksBelow, ReferencesBelow, Uncached;
    assert TriggersExist(infos, name);
    var w, st := Taken(infos, r.world, name), r.world.statuses[name];
    var force := Uncached(infos[name], st, uevents, name);
    SameDelay(infos, r.world.statuses, name);
    RefreshDelay(infos, ranks, r.(world := w), env, now, name, force, SleepBefore(infos, r.world.statuses, name));
    hide SleepBefore;
  }

  /** A refreshed sensor uses the delay of its severity when it is announced, and else the one it came with. */
  lemma RefreshDelay(infos: Infos, ranks: Ranks, r: Round, env: Env, now: int, name: string, force: bool, sleep: int)
    requires ValidInfos(infos, ranks) && ValidStatuses(infos, r.world.statuses) && name in infos
    ensures var r' := Refresh(infos, ranks, r, env, now, name, force, sleep);
            var st, st' := r.world.statuses[name], r'.world.statuses[name];
            var delay := if r'.temps == r.temps then sleep
                         else if st'.severity != NONE then infos[name].smoothing.passiveDelay
                         else infos[name].pollingDelay;
      && (r'.temps == r.temps && name !in r'.failed ==> st'.severity == st.severity)
      && (name !in r'.failed ==>
            && name in r'.used && r'.used[name] == delay
            && r'.sleep.Ms? && st'.lastUpdate.At? && now + r'.sleep.ms <= st'.lastUpdate.ms + delay)
  {
    hide ReadTemp, LinksBelow, ReferencesBelow, TriggersExist;
    ReadOwn(infos, ranks, r.world, env, now, name, force);
  }

  // ----- Announcements -----

  /** The notifications in a history, and those a round returns. */
  function Announced(log: seq<Note>): seq<(string, Severity)> {
    if log == [] then [] else
    var before, note := Announced(log[..|log| - 1]), log[|log| - 1];
    if note.Pushed? then before + [(note.name, note.severity)] else before
  }

  function Returned(temps: seq<(string, Outcome)>): seq<(string, Severity)> {
    if temps == [] then [] else
    var before, last := Returned(temps[..|temps| - 1]), temps[|temps| - 1];
    before + [(last.0, if last.1.Okay? then last.1.severity else NONE)]
  }

  /** The history grows, by nothing that is announced. */
  ghost predicate Silent(w: World, w': World) {
    Announced(w'.log) == Announced(w.log)
  }

  lemma AnnouncedMore(log: seq<Note>, note: Note)
    ensures Announced(log + [note])
         == Announced(log) + if note.Pushed? then [(note.name, note.severity)] else []
  {
    assert (log + [note])[..|log|] == log;
  }

  lemma {:induction false} ReadIsSilent(infos: Infos, ranks: Ranks, w: World, env: Env, now: int, name: string,
                                        force: bool)
    requires ValidInfos(infos, ranks) && ValidStatuses(infos, w.statuses) && name in infos
    ensures Silent(w, ReadTemp(infos, ranks, w, env, now, name, force).0)
    decreases ranks.refs[name], 1, 0
  {
    hide ValidInfos, ReadSensor, Apply, Announced, Refreshed;
    ReferencesRanked(infos, ranks, name);
    var (w1, reading) := ReadSensor(infos, ranks, w, env, now, name, force);
    SensorKeeps(infos, ranks, w, env, now, name, force, name);
    if reading.Read? && reading.temp.Num? {
      ReferencesAreSilent(infos, ranks, w1, env, now, infos[name].references, NONE, ranks.refs[name]);
      var (w2, reference) := ReferenceSeverity(infos, ranks, w1, env, now, infos[name].references, NONE,
                                               ranks.refs[name]);
      ApplyIsSilent(infos, w2, name, reference, infos[name].Scale(reading.temp.value));
    }
  }

  lemma ApplyIsSilent(infos: Infos, w: World, name: string, reference: Severity, value: real)
    requires ValidStatuses(infos, w.statuses) && name in infos
    ensures Silent(w, Apply(infos, w, name, reference, value))
  {
    hide Classify, Announced;
    var note := Seen(name, value, reference, EmulatedSeverity(w.statuses[name]));
    var after := Apply(infos, w, name, reference, value);
    AnnouncedMore(w.log, note);
    AnnouncedMore(w.log + [note], Changed(name, after.statuses[name].severity));
  }

  lemma {:induction false} ReferencesAreSilent(infos: Infos, ranks: Ranks, w: World, env: Env, now: int,
                                               refs: seq<string>, worst: Severity, bound: nat)
    requires ValidInfos(infos, ranks) && ValidStatuses(infos, w.statuses)
    requires forall n | n in refs :: n in infos && ranks.refs[n] < bound
    ensures Silent(w, ReferenceSeverity(infos, ranks, w, env, now, refs, worst, bound).0)
    decreases bound, 0, |refs|
  {
    hide ReadTemp, LinksBelow, TriggersExist, ReferencesBelow;
    if refs != [] {
      assert refs[0] in refs;
      ReadIsSilent(infos, ranks, w, env, now, refs[0], false);
      var (w1, o) := ReadTemp(infos, ranks, w, env, now, refs[0], false);
      if o.Okay? { ReferencesAreSilent(infos, ranks, w1, env, now, refs[1..], MaxSeverity(worst, o.severity), bound); }
    }
  }

  /** What a round has put into the history is what it will return. */
  ghost predicate Matching(start: World, r: Round) {
    Announced(r.world.log) == Announced(start.log) + Returned(r.temps)
  }

  lemma VisitMatches(infos: Infos, ranks: Ranks, start: World, r: Round, env: Env, uevents: map<string, Float>,
                     now: int, name: string)
    requires ValidInfos(infos, ranks) && ValidStatuses(infos, r.world.statuses) && name in infos && Matching(start, r)
    ensures Matching(start, Visit(infos, ranks, r, env, uevents, now, name))
  {
    hide ReadTemp, LinksBelow, ReferencesBelow, Due, SleepBefore, Announced, Returned;
    assert TriggersExist(infos, name);
    var w := Taken(infos, r.world, name);
    var force := Uncached(infos[name], r.world.statuses[name], uevents, name);
    ReadIsSilent(infos, ranks, w, env, now, name, force);
    var (w1, o) := ReadTemp(infos, ranks, w, env, now, name, force);
    if o.Okay? {
      AnnouncedMore(w1.log, Pushed(name, o.severity));
      ReturnedMore(r.temps, name, o);
    }
  }

  lemma ReturnedMore(temps: seq<(string, Outcome)>, name: string, o: Outcome)
    requires o.Okay?
    ensures Returned(temps + [(name, o)]) == Returned(temps) + [(name, o.severity)]
  {
    assert (temps + [(name, o)])[..|temps|] == temps;
  }

  lemma {:induction false} VisitsMatch(infos: Infos, ranks: Ranks, start: World, r: Round, env: Env,
                                       uevents: map<string, Float>, now: int, order: seq<string>)
    requires ValidInfos(infos, ranks) && ValidStatuses(infos, r.world.statuses) && Matching(start, r)
    requires forall n | n in order :: n in infos
    ensures Matching(start, Visits(infos, ranks, r, env, uevents, now, order))
    decreases |order|
  {
    hide Visit, Matching, ValidInfos;
    if order != [] {
      var before := order[..|order| - 1];
      VisitsMatch(infos, ranks, start, r, env, uevents, now, before);
      VisitMatches(infos, ranks, start, Visits(infos, ranks, r, env, uevents, now, before), env, uevents, now,
                   order[|order| - 1]);
    }
  }

  /** A round returns exactly the notifications it has put into the history, in order and with their severities. */
  lemma RoundAnnounces(infos: Infos, ranks: Ranks, w: World, env: Env, uevents: map<string, Float>, now: int,
                       order: seq<string>)
    requires ValidInfos(infos, ranks) && ValidStatuses(infos, w.statuses) && forall n | n in order :: n in infos
    ensures var r := WatchRound(infos, ranks, w, env, uevents, now, order);
            Announced(r.world.log) == Announced(w.log) + Returned(r.temps)
  {
    hide Visits, ValidInfos, Announced;
    assert Announced(w.log) + Returned([]) == Announced(w.log);
    var w1 := w.(statuses := StoreUevents(w.statuses, uevents, now));
    VisitsMatch(infos, ranks, w, Round(w1, Forever, [], {}, map[]), env, uevents, now, order);
  }
}
