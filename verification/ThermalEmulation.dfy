/** Which sensors an emulation reaches through the graph of virtual sensors. */
module ThermalEmulation {
  import opened ThermalTypes
  import opened ThermalSample
  import opened ThermalWorld

  /** b is recomputed from a: b is a watched virtual sensor that lists a. */
  predicate Direct(infos: Infos, a: string, b: string) {
    b in infos && infos[b].isWatch && infos[b].composition.Virtual? && Lists(infos[b].composition.linked, a)
  }

  predicate Lists(sources: seq<Source>, name: string) {
    exists s | s in sources :: s.name == name
  }

  /** path leads from its first sensor to its last through watched virtual sensors. */
  ghost predicate Chain(infos: Infos, path: seq<string>) {
    |path| >= 2 && forall k | 0 <= k < |path| - 1 :: Direct(infos, path[k], path[k + 1])
  }

  ghost predicate Depends(infos: Infos, b: string, a: string) {
    exists path :: Chain(infos, path) && path[0] == a && path[|path| - 1] == b
  }

  /** Everything recomputed, directly or not, from a. */
  ghost function Dependents(infos: Infos, a: string): set<string> {
    set b | b in infos.Keys && Depends(infos, b, a)
  }

  function MarkStatus(st: SensorStatus, maxThrottling: bool): SensorStatus {
    st.(override := st.override.(maxThrottling := maxThrottling, pendingUpdate := true))
  }

  /** Exactly the sensors in marked are flagged for an update; nothing else about any sensor changes. */
  ghost function Mark(statuses: Statuses, marked: set<string>, maxThrottling: bool): Statuses {
    map n | n in statuses :: if n in marked then MarkStatus(statuses[n], maxThrottling) else statuses[n]
  }

  lemma MarkUnion(statuses: Statuses, a: set<string>, b: set<string>, maxThrottling: bool)
    ensures Mark(Mark(statuses, a, maxThrottling), b, maxThrottling) == Mark(statuses, a + b, maxThrottling)
  {
  }

  /** What setting or clearing an emulation does: the target carries it, and the target and all its dependents are
      flagged. */
  ghost function Emulate(infos: Infos, statuses: Statuses, target: string, emul: Emulation,
                         maxThrottling: bool): Statuses
    requires target in statuses
  {
    var st := statuses[target];
    Mark(statuses[target := st.(override := Override(emul, maxThrottling, true))],
         {target} + Dependents(infos, target), maxThrottling)
  }

  function Cleared(st: SensorStatus): SensorStatus {
    st.(override := Override(NotEmulated, false, true))
  }

  function ClearEverything(statuses: Statuses): Statuses {
    map n | n in statuses :: Cleared(statuses[n])
  }

  /** The temperature that emulating a severity uses: its hot threshold, before the multiplier. */
  function Unscale(info: SensorInfo, severity: Severity): Float
    requires info.multiplier != 0.0
  {
    if info.hot[severity].NaN? then NaN else Num(info.hot[severity].value / info.multiplier)
  }

  // ----- Reachability, one link at a time -----

  /** What is reached from a by a first link into one of the sensors in first. */
  ghost function Through(infos: Infos, a: string, first: set<string>): set<string> {
    set c | c in infos.Keys && exists b :: b in first && Direct(infos, a, b) && (c == b || Depends(infos, c, b))
  }

  lemma DependsUnfolds(infos: Infos, c: string, a: string)
    ensures Depends(infos, c, a) <==> exists b :: Direct(infos, a, b) && (c == b || Depends(infos, c, b))
  {
    if Depends(infos, c, a) {
      var path :| Chain(infos, path) && path[0] == a && path[|path| - 1] == c;
      assert Direct(infos, path[0], path[1]);
      if |path| > 2 {
        var rest := path[1..];
        forall k | 0 <= k < |rest| - 1 ensures Direct(infos, rest[k], rest[k + 1]) {
          assert Direct(infos, path[k + 1], path[k + 1 + 1]);
        }
        assert Chain(infos, rest);
      }
    }
    if b :| Direct(infos, a, b) && (c == b || Depends(infos, c, b)) {
      if c == b {
        assert Chain(infos, [a, b]);
      } else {
        var rest :| Chain(infos, rest) && rest[0] == b && rest[|rest| - 1] == c;
        var path := [a] + rest;
        forall k | 0 <= k < |path| - 1 ensures Direct(infos, path[k], path[k + 1]) {
          if k > 0 { assert Direct(infos, rest[k - 1], rest[k - 1 + 1]); }
        }
        assert Chain(infos, path);
      }
    }
  }

  lemma ThroughAll(infos: Infos, a: string)
    ensures Through(infos, a, infos.Keys) == Dependents(infos, a)
  {
    forall c { DependsUnfolds(infos, c, a); }
  }

  lemma ThroughNone(infos: Infos, a: string, statuses: Statuses, maxThrottling: bool)
    ensures Mark(statuses, Through(infos, a, infos.Keys - infos.Keys), maxThrottling) == statuses
  {
  }

  lemma ThroughOne(infos: Infos, a: string, first: set<string>, n: string)
    requires n in infos
    ensures Through(infos, a, first + {n})
         == Through(infos, a, first) + if Direct(infos, a, n) then {n} + Dependents(infos, n) else {}
  {
  }

  lemma DirectAscends(infos: Infos, ranks: Ranks, a: string, b: string)
    requires ValidInfos(infos, ranks) && a in infos && Direct(infos, a, b)
    ensures ranks.links[a] < ranks.links[b] <= ranks.top
  {
    assert LinksBelow(infos, ranks, b);
    var s :| s in infos[b].composition.linked && s.name == a;
    assert Below(infos, ranks, s.name, ranks.links[b]);
  }

  lemma {:induction false} ChainAscends(infos: Infos, ranks: Ranks, path: seq<string>)
    requires ValidInfos(infos, ranks) && Chain(infos, path) && path[0] in infos
    ensures path[|path| - 1] in infos && ranks.links[path[0]] < ranks.links[path[|path| - 1]]
    decreases |path|
  {
    assert Direct(infos, path[0], path[1]);
    DirectAscends(infos, ranks, path[0], path[1]);
    if |path| > 2 {
      var rest := path[1..];
      forall k | 0 <= k < |rest| - 1 ensures Direct(infos, rest[k], rest[k + 1]) {
        assert Direct(infos, path[k + 1], path[k + 1 + 1]);
      }
      ChainAscends(infos, ranks, rest);
    }
  }

  /** No emulation of a sensor comes back to it. */
  lemma NotItsOwnDependent(infos: Infos, ranks: Ranks, a: string)
    requires ValidInfos(infos, ranks) && a in infos
    ensures a !in Dependents(infos, a)
  {
    if Depends(infos, a, a) {
      var path :| Chain(infos, path) && path[0] == a && path[|path| - 1] == a;
      ChainAscends(infos, ranks, path);
    }
  }
}
