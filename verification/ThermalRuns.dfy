/** What the sensor table guarantees over whole runs: notifications and polling deadlines. */
module ThermalRuns {
  import opened Wrappers
  import opened ThermalTypes
  import opened ThermalSeverity
  import opened ThermalSample
  import opened ThermalWorld

  // ----- No severity change is lost -----

  datatype Last = Nothing | LastChanged(to: Severity) | LastPushed(severity: Severity)

  /** The latest entry of the log about a sensor. */
  function LastOf(log: seq<Note>, name: string): Last {
    if log == [] then Nothing else
    match log[|log| - 1]
    case Seen(_, _, _, _) => LastOf(log[..|log| - 1], name)
    case Changed(n, to) => if n == name then LastChanged(to) else LastOf(log[..|log| - 1], name)
    case Pushed(n, s) => if n == name then LastPushed(s) else LastOf(log[..|log| - 1], name)
  }

  /** Every notification about a sensor directly follows, in that sensor's history, a read that
      changed its severity, and announces that severity. */
  ghost predicate PushesAnnounceChanges(log: seq<Note>, name: string) {
    forall k | 0 <= k < |log| && log[k].Pushed? && log[k].name == name ::
      LastOf(log[..k], name) == LastChanged(log[k].severity)
  }

  /** A status agrees with the latest entry about it. */
  predicate Agrees(st: SensorStatus, last: Last) {
    match last
    case Nothing => !st.pendingNotification && st.severity == NONE
    case LastChanged(to) => st.pendingNotification && st.severity == to
    case LastPushed(s) => !st.pendingNotification && st.severity == s
  }

  /** The values of a sensor's watched reads, in order. */
  function ValuesOf(log: seq<Note>, name: string): seq<real> {
    if log == [] then [] else
    var before, note := ValuesOf(log[..|log| - 1], name), log[|log| - 1];
    if note.Seen? && note.name == name then before + [note.value] else before
  }

  /** A sensor's last watched read, if it had one. */
  function LastSeen(log: seq<Note>, name: string): (r: Option<Note>)
    ensures r.Some? ==> r.value.Seen?
  {
    if log == [] then None
    else if log[|log| - 1].Seen? && log[|log| - 1].name == name then Some(log[|log| - 1])
    else LastSeen(log[..|log| - 1], name)
  }

  /** The severities stored for a sensor are those the hysteresis gives for its readings, joined with the references
      and the emulation of the last read. */
  predicate Follows(info: SensorInfo, st: SensorStatus, values: seq<real>, last: Option<Note>) {
    && st.prevHot == HotAfter(info.hot, info.hotHyst, NONE, values)
    && st.prevCold == ColdAfter(info.cold, info.coldHyst, NONE, values)
    && match last
       case None => st.severity == NONE
       case Some(note) =>
         && note.Seen? && Covers(st.severity, st.prevHot, st.prevCold, note.reference, note.emulated)
         && (info.references == [] ==> note.reference == NONE)
  }

  /** Table and history agree on every sensor. */
  ghost predicate Told(infos: Infos, w: World) {
    forall n | n in w.statuses && n in infos ::
      && PushesAnnounceChanges(w.log, n) && Agrees(w.statuses[n], LastOf(w.log, n))
      && Follows(infos[n], w.statuses[n], ValuesOf(w.log, n), LastSeen(w.log, n))
  }

  lemma ExtendLog(log: seq<Note>, note: Note, name: string)
    requires PushesAnnounceChanges(log, name)
    requires note.Pushed? && note.name == name ==> LastOf(log, name) == LastChanged(note.severity)
    ensures PushesAnnounceChanges(log + [note], name)
    ensures LastOf(log + [note], name)
         == if note.name != name || note.Seen? then LastOf(log, name)
            else if note.Changed? then LastChanged(note.to) else LastPushed(note.severity)
    ensures ValuesOf(log + [note], name)
         == if note.Seen? && note.name == name then ValuesOf(log, name) + [note.value] else ValuesOf(log, name)
    ensures LastSeen(log + [note], name) == if note.Seen? && note.name == name then Some(note) else LastSeen(log, name)
  {
    var more := log + [note];
    assert more[..|log|] == log;
    forall k | 0 <= k < |more| && more[k].Pushed? && more[k].name == name
      ensures LastOf(more[..k], name) == LastChanged(more[k].severity)
    {
      if k < |log| { assert more[..k] == log[..k]; }
    }
  }

  lemma ApplyTold(infos: Infos, w: World, name: string, reference: Severity, value: real)
    requires ValidStatuses(infos, w.statuses) && name in infos && Told(infos, w)
    requires infos[name].references == [] ==> reference == NONE
    ensures Told(infos, Apply(infos, w, name, reference, value))
  {
    hide LastOf, ValuesOf, LastSeen, PushesAnnounceChanges, HotAfter, ColdAfter, NextHot, NextCold, Classify, Covers;
    var w', st := Apply(infos, w, name, reference, value), w.statuses[name];
    var note := Seen(name, value, reference, EmulatedSeverity(st));
    OneMoreValue(infos[name], ValuesOf(w.log, name), value);
    UpdateCovers(infos[name], st, reference, value);
    forall n | n in w'.statuses && n in infos
      ensures PushesAnnounceChanges(w'.log, n) && Agrees(w'.statuses[n], LastOf(w'.log, n))
      ensures Follows(infos[n], w'.statuses[n], ValuesOf(w'.log, n), LastSeen(w'.log, n))
    {
      ExtendLog(w.log, note, n);
      if w'.log != w.log + [note] { ExtendLog(w.log + [note], w'.log[|w.log| + 1], n); }
    }
  }

  lemma OneMoreValue(info: SensorInfo, values: seq<real>, value: real)
    ensures HotAfter(info.hot, info.hotHyst, NONE, values + [value])
         == NextHot(info.hot, info.hotHyst, HotAfter(info.hot, info.hotHyst, NONE, values), value)
    ensures ColdAfter(info.cold, info.coldHyst, NONE, values + [value])
         == NextCold(info.cold, info.coldHyst, ColdAfter(info.cold, info.coldHyst, NONE, values), value)
  {
    assert (values + [value])[..|values|] == values;
  }

  lemma SensorTold(infos: Infos, ranks: Ranks, w: World, env: Env, now: int, name: string, force: bool)
    requires ValidInfos(infos, ranks) && ValidStatuses(infos, w.statuses) && name in infos && Told(infos, w)
    ensures Told(infos, ReadSensor(infos, ranks, w, env, now, name, force).0)
  {
    hide LastOf, ValuesOf, LastSeen, PushesAnnounceChanges, HotAfter, ColdAfter, Covers;
  }

  lemma {:induction false} ReadTempTold(infos: Infos, ranks: Ranks, w: World, env: Env, now: int, name: string,
                                        force: bool)
    requires ValidInfos(infos, ranks) && ValidStatuses(infos, w.statuses) && name in infos && Told(infos, w)
    ensures var (w', o) := ReadTemp(infos, ranks, w, env, now, name, force);
            Told(infos, w') && (o.Okay? && infos[name].isWatch ==> w'.statuses[name].severity == o.severity)
    decreases ranks.refs[name], 1, 0
  {
    hide Told, ReadSensor, LinksBelow, TriggersExist, Classify, Refreshed;
    var (w1, reading) := ReadSensor(infos, ranks, w, env, now, name, force);
    SensorTold(infos, ranks, w, env, now, name, force);
    assert ReferencesBelow(infos, ranks, name);
    if reading.Read? && reading.temp.Num? {
      ReferenceTold(infos, ranks, w1, env, now, infos[name].references, NONE, ranks.refs[name]);
      var (w2, reference) := ReferenceSeverity(infos, ranks, w1, env, now, infos[name].references, NONE,
                                               ranks.refs[name]);
      if infos[name].isWatch {
        ApplyTold(infos, w2, name, reference, infos[name].Scale(reading.temp.value));
      }
    }
  }

  lemma {:induction false} ReferenceTold(infos: Infos, ranks: Ranks, w: World, env: Env, now: int,
                                         refs: seq<string>, worst: Severity, bound: nat)
    requires ValidInfos(infos, ranks) && ValidStatuses(infos, w.statuses) && Told(infos, w)
    requires forall n | n in refs :: n in infos && ranks.refs[n] < bound
    ensures Told(infos, ReferenceSeverity(infos, ranks, w, env, now, refs, worst, bound).0)
    decreases bound, 0, |refs|
  {
    if refs != [] {
      assert refs[0] in refs;
      ReadTempTold(infos, ranks, w, env, now, refs[0], false);
      var (w1, o) := ReadTemp(infos, ranks, w, env, now, refs[0], false);
      if o.Okay? {
        ReferenceTold(infos, ranks, w1, env, now, refs[1..], MaxSeverity(worst, o.severity), bound);
      }
    }
  }

  lemma FinishTold(infos: Infos, r: Round, name: string, o: Outcome, sleep: int, now: int)
    requires ValidStatuses(infos, r.world.statuses) && name in infos && o.Okay? && Told(infos, r.world)
    requires r.world.statuses[name].severity == o.severity
    ensures Told(infos, Finish(infos, r, name, o, sleep, now).world)
  {
    var w, w' := r.world, Finish(infos, r, name, o, sleep, now).world;
    if w.statuses[name].pendingNotification {
      assert Agrees(w.statuses[name], LastOf(w.log, name));
      forall n | n in w'.statuses && n in infos
        ensures PushesAnnounceChanges(w'.log, n) && Agrees(w'.statuses[n], LastOf(w'.log, n))
        ensures Follows(infos[n], w'.statuses[n], ValuesOf(w'.log, n), LastSeen(w'.log, n))
      {
        ExtendLog(w.log, Pushed(name, o.severity), n);
      }
    }
  }

  lemma VisitTold(infos: Infos, ranks: Ranks, r: Round, env: Env,
                  uevents: map<string, Float>, now: int, name: string)
    requires ValidInfos(infos, ranks) && ValidStatuses(infos, r.world.statuses) && name in infos && Told(infos, r.world)
    ensures Told(infos, Visit(infos, ranks, r, env, uevents, now, name).world)
  {
    hide ValidInfos, Told, Finish, ReadTemp, Taken, SleepBefore, Due, TriggersExist, Uncached;
    TakenTold(infos, ranks, r.world, name);
    if !infos[name].isWatch { return; }
    var info, st := infos[name], r.world.statuses[name];
    var w := Taken(infos, r.world, name);
    var force := Uncached(info, st, uevents, name);
    ReadTempTold(infos, ranks, w, env, now, name, force);
    var (w1, o) := ReadTemp(infos, ranks, w, env, now, name, force);
    if o.Okay? {
      FinishTold(infos, r.(world := w1), name, o, SleepBefore(infos, r.world.statuses, name), now);
    }
  }

  lemma TakenTold(infos: Infos, ranks: Ranks, w: World, name: string)
    requires ValidInfos(infos, ranks) && ValidStatuses(infos, w.statuses) && name in infos && Told(infos, w)
    ensures TriggersExist(infos, name) && Told(infos, Taken(infos, w, name))
  {
  }

  lemma {:induction false} VisitsTold(infos: Infos, ranks: Ranks, r: Round, env: Env,
                                      uevents: map<string, Float>, now: int, order: seq<string>)
    requires ValidInfos(infos, ranks) && ValidStatuses(infos, r.world.statuses) && Told(infos, r.world)
    requires forall n | n in order :: n in infos
    ensures Told(infos, Visits(infos, ranks, r, env, uevents, now, order).world)
    decreases |order|
  {
    hide Visit;
    if order != [] {
      var before := order[..|order| - 1];
      VisitsTold(infos, ranks, r, env, uevents, now, before);
      VisitTold(infos, ranks, Visits(infos, ranks, r, env, uevents, now, before), env, uevents, now,
                order[|order| - 1]);
    }
  }

  /** What can happen to the table: a read by any caller, a watcher round, a change of emulation. */
  datatype Op =
    | OpRead(name: string, env: Env, now: int, force: bool)
    | OpWatch(uevents: map<string, Float>, env: Env, now: int, order: seq<string>)
    | OpEmulate(overrides: map<string, Override>)

  predicate ValidOp(infos: Infos, op: Op) {
    match op
    case OpRead(name, _, _, _) => name in infos
    case OpWatch(_, _, _, order) => forall n | n in order :: n in infos
    case OpEmulate(overrides) => overrides.Keys == infos.Keys
  }

  ghost function Perform(infos: Infos, ranks: Ranks, w: World, op: Op): (w': World)
    requires ValidInfos(infos, ranks) && ValidStatuses(infos, w.statuses) && ValidOp(infos, op)
    ensures ValidStatuses(infos, w'.statuses)
  {
    match op
    case OpRead(name, env, now, force) => ReadTemp(infos, ranks, w, env, now, name, force).0
    case OpWatch(uevents, env, now, order) => WatchRound(infos, ranks, w, env, uevents, now, order).world
    case OpEmulate(overrides) => w.(statuses := map n | n in w.statuses :: w.statuses[n].(override := overrides[n]))
  }

  ghost function Run(infos: Infos, ranks: Ranks, ops: seq<Op>): (w: World)
    requires ValidInfos(infos, ranks) && forall op | op in ops :: ValidOp(infos, op)
    ensures ValidStatuses(infos, w.statuses)
    decreases |ops|
  {
    if ops == [] then World(map n | n in infos :: FRESH, [])
    else Perform(infos, ranks, Run(infos, ranks, ops[..|ops| - 1]), ops[|ops| - 1])
  }

  /** The severity last announced for a sensor, NONE before any notification. */
  function LastAnnounced(log: seq<Note>, name: string): Severity {
    if log == [] then NONE
    else if log[|log| - 1].Pushed? && log[|log| - 1].name == name then log[|log| - 1].severity
    else LastAnnounced(log[..|log| - 1], name)
  }

  lemma {:induction false} LastPushedIsAnnounced(log: seq<Note>, name: string)
    ensures LastOf(log, name).LastPushed? ==> LastAnnounced(log, name) == LastOf(log, name).severity
    ensures LastOf(log, name).Nothing? ==> LastAnnounced(log, name) == NONE
  {
    if log != [] { LastPushedIsAnnounced(log[..|log| - 1], name); }
  }

  lemma PerformTold(infos: Infos, ranks: Ranks, w: World, op: Op)
    requires ValidInfos(infos, ranks) && ValidStatuses(infos, w.statuses) && ValidOp(infos, op) && Told(infos, w)
    ensures Told(infos, Perform(infos, ranks, w, op))
  {
    hide ReadTemp, WatchRound;
    match op {
      case OpRead(name, env, now, force) => ReadTempTold(infos, ranks, w, env, now, name, force);
      case OpWatch(uevents, env, now, order) => RoundTold(infos, ranks, w, env, uevents, now, order);
      case OpEmulate(_) =>
    }
  }

  /** No lost severity change, over any run of reads, rounds and emulations: a sensor without a pending
      notification shows the severity last announced, and every announcement follows a change to it. */
  lemma {:induction false} NoLostChange(infos: Infos, ranks: Ranks, ops: seq<Op>)
    requires ValidInfos(infos, ranks) && forall op | op in ops :: ValidOp(infos, op)
    ensures var w := Run(infos, ranks, ops);
            && Told(infos, w)
            && forall n | n in infos && !w.statuses[n].pendingNotification ::
                 LastAnnounced(w.log, n) == w.statuses[n].severity
    decreases |ops|
  {
    hide Perform;
    var w := Run(infos, ranks, ops);
    if ops != [] {
      NoLostChange(infos, ranks, ops[..|ops| - 1]);
      assert ops[|ops| - 1] in ops;
      PerformTold(infos, ranks, Run(infos, ranks, ops[..|ops| - 1]), ops[|ops| - 1]);
    }
    forall n | n in infos && !w.statuses[n].pendingNotification
      ensures LastAnnounced(w.log, n) == w.statuses[n].severity
    {
      assert Agrees(w.statuses[n], LastOf(w.log, n));
      LastPushedIsAnnounced(w.log, n);
    }
  }

  /** Over any run the severity stored for a sensor is determined by its own readings and the references of its last
      read: every level is reached exactly when the hysteresis on the hot or on the cold side reaches it for the run of
      readings, or a reference did. An emulated severity stands for itself, and before any read there is none. */
  lemma StoredSeverity(infos: Infos, ranks: Ranks, ops: seq<Op>, name: string)
    requires ValidInfos(infos, ranks) && (forall op | op in ops :: ValidOp(infos, op)) && name in infos
    ensures var w, info := Run(infos, ranks, ops), infos[name];
            var values, st := ValuesOf(w.log, name), w.statuses[name];
            var hot := HotAfter(info.hot, info.hotHyst, NONE, values);
            var cold := ColdAfter(info.cold, info.coldHyst, NONE, values);
      && st.prevHot == hot && st.prevCold == cold
      && match LastSeen(w.log, name)
         case None => st.severity == NONE
         case Some(last) =>
           if last.emulated >= 0 then st.severity == last.emulated
           else forall i | 1 <= i <= 6 ::
             AtLeast(st.severity, i) <==> AtLeast(hot, i) || AtLeast(cold, i) || AtLeast(last.reference, i)
  {
    hide Run, HotAfter, ColdAfter, ValuesOf, LastSeen, ValidInfos;
    NoLostChange(infos, ranks, ops);
  }

  /** For a sensor without cold thresholds and references the announced severity itself is the hysteresis applied to
      its readings, as long as the last one was not read under an emulated severity. */
  lemma AnnouncedFollowsReadings(infos: Infos, ranks: Ranks, ops: seq<Op>, name: string)
    requires ValidInfos(infos, ranks) && (forall op | op in ops :: ValidOp(infos, op)) && name in infos
    requires infos[name].references == [] && forall i | 0 <= i <= 6 :: infos[name].cold[i].NaN?
    requires var last := LastSeen(Run(infos, ranks, ops).log, name); last.Some? && last.value.emulated < 0
    ensures var w, info := Run(infos, ranks, ops), infos[name];
            var hot := HotAfter(info.hot, info.hotHyst, NONE, ValuesOf(w.log, name));
      && w.statuses[name].severity == hot
      && (!w.statuses[name].pendingNotification ==> LastAnnounced(w.log, name) == hot)
  {
    hide Run, HotAfter, ColdAfter, ValuesOf, LastSeen, ValidInfos, Covers, LastAnnounced;
    NoLostChange(infos, ranks, ops);
    var w, info := Run(infos, ranks, ops), infos[name];
    var st, last := w.statuses[name], LastSeen(w.log, name).value;
    assert Follows(info, st, ValuesOf(w.log, name), LastSeen(w.log, name));
    ColdSilent(info.cold, info.coldHyst, ValuesOf(w.log, name));
    CoversHotOnly(st.severity, st.prevHot, last.emulated);
  }

  lemma CoversHotOnly(severity: Severity, hot: Severity, emulated: EmulSeverity)
    requires Covers(severity, hot, NONE, NONE, emulated) && emulated < 0
    ensures severity == hot
  {
    if severity > hot { assert AtLeast(severity, severity) && !AtLeast(hot, severity); }
    if hot > severity { assert AtLeast(hot, hot) && !AtLeast(severity, hot); }
  }

  /** The chatter bound speaks of the sensor table: over any run, every crossing of a level by the remembered hot
      severity after the first is paid for by the movement of the sensor's own readings. */
  lemma TableChatterBound(infos: Infos, ranks: Ranks, ops: seq<Op>, name: string, i: Severity)
    requires ValidInfos(infos, ranks) && (forall op | op in ops :: ValidOp(infos, op)) && name in infos
    requires NoOverlap(infos[name].hot, infos[name].hotHyst) && NonNegative(infos[name].hotHyst)
    requires i > 0 && infos[name].hot[i].Num?
    ensures var info, w := infos[name], Run(infos, ranks, ops);
            var values := ValuesOf(w.log, name);
            var n := Crossings(info.hot, info.hotHyst, NONE, values, i);
      && w.statuses[name].prevHot == HotAfter(info.hot, info.hotHyst, NONE, values)
      && (n > 0 ==> Times(n - 1, info.hotHyst[i]) <= Variation(values))
  {
    hide Run, HotAfter, ValuesOf, NoOverlap, NonNegative, ValidInfos;
    StoredSeverity(infos, ranks, ops, name);
    var values := ValuesOf(Run(infos, ranks, ops).log, name);
    if values != [] { ChatterBound(infos[name].hot, infos[name].hotHyst, NONE, values, i); }
  }

  lemma RoundTold(infos: Infos, ranks: Ranks, w: World, env: Env,
                  uevents: map<string, Float>, now: int, order: seq<string>)
    requires ValidInfos(infos, ranks) && ValidStatuses(infos, w.statuses) && Told(infos, w)
    requires forall n | n in order :: n in infos
    ensures Told(infos, WatchRound(infos, ranks, w, env, uevents, now, order).world)
  {
    hide Visits;
    var w1 := w.(statuses := StoreUevents(w.statuses, uevents, now));
    assert Told(infos, w1);
    VisitsTold(infos, ranks, Round(w1, Forever, [], {}, map[]), env, uevents, now, order);
  }

  // ----- Polling deadlines -----

  /** A read never touches the times at which the watcher refreshed its sensors. */
  ghost predicate SameTimes(infos: Infos, a: Statuses, b: Statuses) {
    a.Keys == infos.Keys && b.Keys == infos.Keys && forall n | n in infos :: a[n].lastUpdate == b[n].lastUpdate
  }

  lemma SensorKeepsTimes(infos: Infos, ranks: Ranks, w: World, env: Env, now: int, name: string, force: bool)
    requires ValidInfos(infos, ranks) && ValidStatuses(infos, w.statuses) && name in infos
    ensures SameTimes(infos, w.statuses, ReadSensor(infos, ranks, w, env, now, name, force).0.statuses)
  {
  }

  lemma ApplyKeepsTimes(infos: Infos, w: World, name: string, reference: Severity, value: real)
    requires ValidStatuses(infos, w.statuses) && name in infos
    ensures SameTimes(infos, w.statuses, Apply(infos, w, name, reference, value).statuses)
  {
    hide Classify;
  }

  lemma TimesTrans(infos: Infos, a: Statuses, b: Statuses, c: Statuses)
    requires SameTimes(infos, a, b) && SameTimes(infos, b, c)
    ensures SameTimes(infos, a, c)
  {
  }

  lemma {:induction false} ReadKeepsTimes(infos: Infos, ranks: Ranks, w: World, env: Env, now: int, name: string,
                                          force: bool)
    requires ValidInfos(infos, ranks) && ValidStatuses(infos, w.statuses) && name in infos
    ensures SameTimes(infos, w.statuses, ReadTemp(infos, ranks, w, env, now, name, force).0.statuses)
    decreases ranks.refs[name], 1, 0
  {
    hide SameTimes, ReadSensor, Apply;
    var (w1, reading) := ReadSensor(infos, ranks, w, env, now, name, force);
    SensorKeepsTimes(infos, ranks, w, env, now, name, force);
    if reading.Read? && reading.temp.Num? {
      var refs := infos[name].references;
      ReferencesKeepTimes(infos, ranks, w1, env, now, refs, NONE, ranks.refs[name]);
      var (w2, reference) := ReferenceSeverity(infos, ranks, w1, env, now, refs, NONE, ranks.refs[name]);
      TimesTrans(infos, w.statuses, w1.statuses, w2.statuses);
      if infos[name].isWatch {
        var value := infos[name].Scale(reading.temp.value);
        ApplyKeepsTimes(infos, w2, name, reference, value);
        TimesTrans(infos, w.statuses, w2.statuses, Apply(infos, w2, name, reference, value).statuses);
      }
    }
  }

  lemma {:induction false} ReferencesKeepTimes(infos: Infos, ranks: Ranks, w: World, env: Env, now: int,
                                               refs: seq<string>, worst: Severity, bound: nat)
    requires ValidInfos(infos, ranks) && ValidStatuses(infos, w.statuses)
    requires forall n | n in refs :: n in infos && ranks.refs[n] < bound
    ensures SameTimes(infos, w.statuses, ReferenceSeverity(infos, ranks, w, env, now, refs, worst, bound).0.statuses)
    decreases bound, 0, |refs|
  {
    if refs != [] {
      assert refs[0] in refs;
      ReadKeepsTimes(infos, ranks, w, env, now, refs[0], false);
      var (w1, o) := ReadTemp(infos, ranks, w, env, now, refs[0], false);
      if o.Okay? {
        ReferencesKeepTimes(infos, ranks, w1, env, now, refs[1..], MaxSeverity(worst, o.severity), bound);
        var (w2, _) := ReferenceSeverity(infos, ranks, w1, env, now, refs[1..], MaxSeverity(worst, o.severity), bound);
        TimesTrans(infos, w.statuses, w1.statuses, w2.statuses);
      }
    }
  }

  /** The round promises to be back for this sensor by its deadline. */
  predicate Meets(infos: Infos, r: Round, name: string, now: int) {
    && name in infos && name in r.world.statuses && name in r.used
    && (r.used[name] == infos[name].PassiveDelay() || r.used[name] == infos[name].pollingDelay)
    && r.world.statuses[name].lastUpdate.At? && r.sleep.Ms?
    && now + r.sleep.ms <= r.world.statuses[name].lastUpdate.ms + r.used[name]
  }

  /** After a round without uevents no sensor it kept waiting is older than the delay it used. */
  predicate Young(r: Round, name: string, now: int) {
    && name in r.world.statuses && name in r.used && r.world.statuses[name].lastUpdate.At?
    && (now - r.world.statuses[name].lastUpdate.ms <= r.used[name] || r.world.statuses[name].lastUpdate.ms == now)
  }

  /** What a round owes a watched sensor once it has been visited. */
  predicate Served(infos: Infos, r: Round, uevents: map<string, Float>, name: string, now: int) {
    name in r.failed || (Meets(infos, r, name, now) && (uevents == map[] ==> Young(r, name, now)))
  }

  /** The sleep only shrinks, and the other sensors keep their times and delays. */
  lemma FinishServes(infos: Infos, r: Round, uevents: map<string, Float>, visited: string, o: Outcome, sleep: int,
                     now: int, name: string)
    requires ValidStatuses(infos, r.world.statuses) && visited in infos && o.Okay?
    requires sleep == infos[visited].PassiveDelay() || sleep == infos[visited].pollingDelay
    requires name == visited || Served(infos, r, uevents, name, now)
    ensures Served(infos, Finish(infos, r, visited, o, sleep, now), uevents, name, now)
  {
  }

  lemma KeepServes(infos: Infos, r: Round, w: World, uevents: map<string, Float>, name: string, now: int)
    requires Served(infos, r, uevents, name, now) && SameTimes(infos, r.world.statuses, w.statuses)
    ensures Served(infos, r.(world := w), uevents, name, now)
  {
  }

  lemma FailServes(infos: Infos, r: Round, visited: string, uevents: map<string, Float>, name: string, now: int)
    requires name == visited || Served(infos, r, uevents, name, now)
    ensures Served(infos, r.(failed := r.failed + {visited}), uevents, name, now)
  {
  }

  /** A sensor that is not due keeps waiting for the rest of its delay. */
  lemma SkipServes(infos: Infos, r: Round, w: World, uevents: map<string, Float>, visited: string, sleep: int,
                   now: int, name: string)
    requires ValidStatuses(infos, r.world.statuses) && SameTimes(infos, r.world.statuses, w.statuses)
    requires visited in infos && name in infos
    requires sleep == infos[visited].PassiveDelay() || sleep == infos[visited].pollingDelay
    requires !Due(infos[visited], r.world.statuses[visited], uevents, now, visited, sleep)
    requires name == visited || Served(infos, r, uevents, name, now)
    ensures var last := r.world.statuses[visited].lastUpdate;
      && last.At?
      && Served(infos, r.(world := w, sleep := Shorter(r.sleep, sleep - (now - last.ms)),
                          used := r.used[visited := sleep]), uevents, name, now)
  {
  }

  /** Taking a pending override keeps the times, and the sleep is one of the two delays. */
  lemma ForVisit(infos: Infos, ranks: Ranks, w: World, name: string)
    requires ValidInfos(infos, ranks) && ValidStatuses(infos, w.statuses) && name in infos
    ensures SameTimes(infos, w.statuses, Taken(infos, w, name).statuses) && TriggersExist(infos, name)
    ensures var sleep := SleepBefore(infos, w.statuses, name);
            sleep == infos[name].PassiveDelay() || sleep == infos[name].pollingDelay
  {
  }

  lemma RefreshServes(infos: Infos, ranks: Ranks, r: Round, env: Env,
                      uevents: map<string, Float>, now: int, visited: string, force: bool, sleep: int, name: string)
    requires ValidInfos(infos, ranks) && ValidStatuses(infos, r.world.statuses) && visited in infos
    requires sleep == infos[visited].PassiveDelay() || sleep == infos[visited].pollingDelay
    requires name == visited || Served(infos, r, uevents, name, now)
    ensures Served(infos, Refresh(infos, ranks, r, env, now, visited, force, sleep), uevents, name, now)
  {
    hide ReadTemp, Finish, Served, SameTimes, ValidInfos;
    ReadKeepsTimes(infos, ranks, r.world, env, now, visited, force);
    var (w, o) := ReadTemp(infos, ranks, r.world, env, now, visited, force);
    if name != visited { KeepServes(infos, r, w, uevents, name, now); }
    if o.Okay? {
      FinishServes(infos, r.(world := w), uevents, visited, o, sleep, now, name);
    } else {
      FailServes(infos, r.(world := w), visited, uevents, name, now);
    }
  }

  lemma VisitServes(infos: Infos, ranks: Ranks, r: Round, env: Env,
                    uevents: map<string, Float>, now: int, visited: string, name: string)
    requires ValidInfos(infos, ranks) && ValidStatuses(infos, r.world.statuses)
    requires visited in infos && name in infos && infos[name].isWatch
    requires name == visited || Served(infos, r, uevents, name, now)
    ensures Served(infos, Visit(infos, ranks, r, env, uevents, now, visited), uevents, name, now)
  {
    hide ValidInfos, Refresh, Served, SameTimes, SleepBefore, Taken, Due, Shorter, TriggersExist, Uncached;
    ForVisit(infos, ranks, r.world, visited);
    if !infos[visited].isWatch { return; }
    var info, st := infos[visited], r.world.statuses[visited];
    var sleep := SleepBefore(infos, r.world.statuses, visited);
    var w := Taken(infos, r.world, visited);
    if Due(info, st, uevents, now, visited, sleep) || st.override.pendingUpdate {
      if name != visited { KeepServes(infos, r, w, uevents, name, now); }
      RefreshServes(infos, ranks, r.(world := w), env, uevents, now, visited, Uncached(info, st, uevents, visited),
                    sleep, name);
    } else {
      SkipServes(infos, r, w, uevents, visited, sleep, now, name);
    }
  }

  lemma {:induction false} VisitsServe(infos: Infos, ranks: Ranks, r: Round, env: Env,
                                      uevents: map<string, Float>, now: int, order: seq<string>, name: string)
    requires ValidInfos(infos, ranks) && ValidStatuses(infos, r.world.statuses)
    requires forall n | n in order :: n in infos
    requires name in order && infos[name].isWatch
    ensures Served(infos, Visits(infos, ranks, r, env, uevents, now, order), uevents, name, now)
    decreases |order|
  {
    hide Visit;
    var before, last := order[..|order| - 1], order[|order| - 1];
    if name != last {
      assert name in before;
      VisitsServe(infos, ranks, r, env, uevents, now, before, name);
    }
    VisitServes(infos, ranks, Visits(infos, ranks, r, env, uevents, now, before), env, uevents, now, last, name);
  }

  /** Every round: each watched sensor it could read is promised a visit by its deadline. */
  lemma RoundMeetsDeadlines(infos: Infos, ranks: Ranks, w: World, env: Env,
                            uevents: map<string, Float>, now: int, order: seq<string>, name: string)
    requires ValidInfos(infos, ranks) && ValidStatuses(infos, w.statuses)
    requires forall n | n in order :: n in infos
    requires name in order && infos[name].isWatch
    ensures Served(infos, WatchRound(infos, ranks, w, env, uevents, now, order), uevents, name, now)
  {
    hide Visits;
    VisitsServe(infos, ranks, Round(w.(statuses := StoreUevents(w.statuses, uevents, now)), Forever, [], {}, map[]),
               env, uevents, now, order, name);
  }

  /** One watcher round of a run: the table it starts from, its inputs and its time. */
  datatype RoundCall = RoundCall(start: World, env: Env, now: int, order: seq<string>)

  ghost function RunRound(infos: Infos, ranks: Ranks, c: RoundCall): Round
    requires ValidInfos(infos, ranks) && ValidStatuses(infos, c.start.statuses)
    requires forall n | n in c.order :: n in infos
  {
    WatchRound(infos, ranks, c.start, c.env, map[], c.now, c.order)
  }

  /** A run of rounds without uevents: whatever happens between two rounds leaves the refresh times
      alone, and the next round starts within the returned sleep, or within one millisecond when that is zero or
      less. */
  ghost predicate PolledRun(infos: Infos, ranks: Ranks, calls: seq<RoundCall>) {
    && ValidInfos(infos, ranks)
    && (forall k | 0 <= k < |calls| ::
          ValidStatuses(infos, calls[k].start.statuses) && forall n | n in calls[k].order :: n in infos)
    && forall k | 0 < k < |calls| ::
         var r := RunRound(infos, ranks, calls[k - 1]);
         && SameTimes(infos, r.world.statuses, calls[k].start.statuses)
         && calls[k - 1].now <= calls[k].now
         && (r.sleep.Ms? ==> calls[k].now <= calls[k - 1].now + if r.sleep.ms > 1 then r.sleep.ms else 1)
  }

  /** Polling without uevents: at every round of the run, a sensor the previous round could read was
      last refreshed at most one millisecond more than the delay in use ago. */
  lemma RefreshGap(infos: Infos, ranks: Ranks, calls: seq<RoundCall>, k: nat, name: string)
    requires PolledRun(infos, ranks, calls) && 0 < k < |calls|
    requires name in calls[k - 1].order && infos[name].isWatch
    requires infos[name].PassiveDelay() >= 0 && infos[name].pollingDelay >= 0
    requires name !in RunRound(infos, ranks, calls[k - 1]).failed
    ensures var used := RunRound(infos, ranks, calls[k - 1]).used;
            && name in used && (used[name] == infos[name].PassiveDelay() || used[name] == infos[name].pollingDelay)
            && calls[k].start.statuses[name].lastUpdate.At?
            && calls[k].now - calls[k].start.statuses[name].lastUpdate.ms <= used[name] + 1
  {
    hide WatchRound;
    var c := calls[k - 1];
    RoundMeetsDeadlines(infos, ranks, c.start, c.env, map[], c.now, c.order, name);
  }
}
