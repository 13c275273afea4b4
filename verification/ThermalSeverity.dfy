/**
 Severity with hysteresis: the descending threshold loop of the thermal helper, the
 function it computes, and what that function guarantees over whole runs of readings.
 */
module ThermalSeverity {
  import opened ThermalTypes

  /** Levels whose hot threshold the value has reached. */
  function HotReached(hot: Thresholds, v: real): (marks: seq<bool>)
    ensures |marks| == 7
  {
    seq(7, i requires 0 <= i < 7 => hot[i].Num? && hot[i].value <= v)
  }

  /** Levels the value has not yet fallen out of. */
  function HotHeld(hot: Thresholds, hyst: Hysteresis, v: real): (marks: seq<bool>)
    ensures |marks| == 7
  {
    seq(7, i requires 0 <= i < 7 => hot[i].Num? && hot[i].value - hyst[i] < v)
  }

  function ColdReached(cold: Thresholds, v: real): (marks: seq<bool>)
    ensures |marks| == 7
  {
    seq(7, i requires 0 <= i < 7 => cold[i].Num? && cold[i].value >= v)
  }

  function ColdHeld(cold: Thresholds, hyst: Hysteresis, v: real): (marks: seq<bool>)
    ensures |marks| == 7
  {
    seq(7, i requires 0 <= i < 7 => cold[i].Num? && cold[i].value + hyst[i] > v)
  }

  /** The highest marked level in 1..n, NONE when there is none. */
  function Highest(marks: seq<bool>, n: nat): (r: nat)
    requires n < |marks|
    ensures r <= n
    ensures r > 0 ==> marks[r]
    ensures forall j | r < j <= n :: !marks[j]
  {
    if n == 0 then 0 else if marks[n] then n else Highest(marks, n - 1)
  }

  function NextHot(hot: Thresholds, hyst: Hysteresis, prev: Severity, v: real): Severity {
    var raw := Highest(HotReached(hot, v), 6);
    if raw < prev then Highest(HotHeld(hot, hyst, v), 6) else raw
  }

  function NextCold(cold: Thresholds, hyst: Hysteresis, prev: Severity, v: real): Severity {
    var raw := Highest(ColdReached(cold, v), 6);
    if raw < prev then Highest(ColdHeld(cold, hyst, v), 6) else raw
  }

  /** r is the highest marked level above i, or NONE. The loop below keeps this for four markings. */
  ghost predicate HighestAbove(marks: seq<bool>, i: nat, r: nat)
    requires |marks| == 7 && i <= 6
  {
    && (r == 0 || (i < r <= 6 && marks[r]))
    && forall j | i < j <= 6 && r < j :: !marks[j]
  }

  method GetSeverityFromThresholds(hot: Thresholds, cold: Thresholds, hotHyst: Hysteresis, coldHyst: Hysteresis,
                                   prevHot: Severity, prevCold: Severity, value: real)
    returns (retHot: Severity, retCold: Severity)
    ensures retHot == NextHot(hot, hotHyst, prevHot, value)
    ensures retCold == NextCold(cold, coldHyst, prevCold, value)
  {
    retHot, retCold := NONE, NONE;
    var hotHeld: Severity, coldHeld: Severity := NONE, NONE;
    var i := 6;
    while i > 0
      invariant 0 <= i <= 6
      invariant HighestAbove(HotReached(hot, value), i, retHot)
      invariant HighestAbove(HotHeld(hot, hotHyst, value), i, hotHeld)
      invariant HighestAbove(ColdReached(cold, value), i, retCold)
      invariant HighestAbove(ColdHeld(cold, coldHyst, value), i, coldHeld)
    {
      if hot[i].Num? && hot[i].value <= value && retHot == NONE { retHot := i; }
      if hot[i].Num? && hot[i].value - hotHyst[i] < value && hotHeld == NONE { hotHeld := i; }
      if cold[i].Num? && cold[i].value >= value && retCold == NONE { retCold := i; }
      if cold[i].Num? && cold[i].value + coldHyst[i] > value && coldHeld == NONE { coldHeld := i; }
      i := i - 1;
    }
    if retHot < prevHot { retHot := hotHeld; }
    if retCold < prevCold { retCold := coldHeld; }
  }

  // ----- What the configuration parser accepts -----

  /** k is the next configured level after j. */
  ghost predicate NextConfigured(a: Thresholds, j: nat, k: nat) {
    j < k <= 6 && a[j].Num? && a[k].Num? && forall m | j < m < k :: a[m].NaN?
  }

  /** The parser's overlap test between neighbouring configured levels. */
  ghost predicate NoOverlap(hot: Thresholds, hyst: Hysteresis) {
    forall j: nat, k: nat | NextConfigured(hot, j, k) :: hot[j].value <= hot[k].value - hyst[k]
  }

  ghost predicate NonNegative(hyst: Hysteresis) {
    forall i | 0 <= i <= 6 :: hyst[i] >= 0.0
  }

  /** The overlap loop of the parser: true exactly when no two neighbouring configured levels overlap. */
  method CheckHotOverlap(hot: Thresholds, hyst: Hysteresis) returns (ok: bool)
    ensures ok <==> NoOverlap(hot, hyst)
  {
    var j := 0;
    while j < 6
      invariant 0 <= j <= 6
      invariant forall a: nat, b: nat | a < j && NextConfigured(hot, a, b) :: hot[a].value <= hot[b].value - hyst[b]
    {
      if hot[j].Num? {
        var k := j + 1;
        while k < 7 && hot[k].NaN?
          invariant j < k <= 7
          invariant forall m | j < m < k :: hot[m].NaN?
        {
          k := k + 1;
        }
        if k < 7 {
          assert NextConfigured(hot, j, k);
          if hot[j].value > hot[k].value - hyst[k] { return false; }
        }
      }
      j := j + 1;
    }
    return true;
  }

  /** Neighbour by neighbour is enough: with non-negative hysteresis every lower threshold
      lies at or below every higher level's release point. */
  lemma {:induction false} OverlapOrdersAll(hot: Thresholds, hyst: Hysteresis, j: nat, k: nat)
    requires NoOverlap(hot, hyst) && NonNegative(hyst)
    requires j < k <= 6 && hot[j].Num? && hot[k].Num?
    ensures hot[j].value <= hot[k].value - hyst[k]
    decreases k - j
  {
    if m :| j < m < k && hot[m].Num? {
      OverlapOrdersAll(hot, hyst, j, m);
      OverlapOrdersAll(hot, hyst, m, k);
    } else {
      assert NextConfigured(hot, j, k);
    }
  }

  // ----- One step -----

  /** A level the helper can be in: NONE or one with a threshold. */
  ghost predicate Configured(a: Thresholds, level: Severity) {
    level == NONE || a[level].Num?
  }

  lemma {:induction false} NextHotConfigured(hot: Thresholds, hyst: Hysteresis, prev: Severity, v: real)
    ensures Configured(hot, NextHot(hot, hyst, prev, v))
  {
  }

  /** Never above both the level of the value alone and the previous level. */
  lemma {:induction false} NextHotUpper(hot: Thresholds, hyst: Hysteresis, prev: Severity, v: real)
    requires NoOverlap(hot, hyst) && NonNegative(hyst) && Configured(hot, prev)
    ensures NextHot(hot, hyst, prev, v) <= Highest(HotReached(hot, v), 6) || NextHot(hot, hyst, prev, v) <= prev
  {
    var reached, held := HotReached(hot, v), HotHeld(hot, hyst, v);
    var h := Highest(held, 6);
    if Highest(reached, 6) < prev < h {
      assert !reached[prev] && held[h];
      OverlapOrdersAll(hot, hyst, prev, h);
    }
  }

  /** The value sits exactly on the threshold of a lower level that has no hysteresis: the
      strict comparison of the hysteresis test then misses a level that the plain test grants. */
  predicate Tie(hot: Thresholds, hyst: Hysteresis, prev: Severity, v: real) {
    var raw := Highest(HotReached(hot, v), 6);
    0 < raw < prev && hyst[raw] == 0.0 && hot[raw].Num? && hot[raw].value == v
  }

  /** Never below the level of the value alone, except exactly at a Tie. */
  lemma {:induction false} NextHotLower(hot: Thresholds, hyst: Hysteresis, prev: Severity, v: real)
    requires NoOverlap(hot, hyst) && NonNegative(hyst)
    ensures Highest(HotReached(hot, v), 6) <= NextHot(hot, hyst, prev, v) <==> !Tie(hot, hyst, prev, v)
  {
    var reached, held := HotReached(hot, v), HotHeld(hot, hyst, v);
    var raw, h := Highest(reached, 6), Highest(held, 6);
    if 0 < raw < prev {
      assert reached[raw];
      if Tie(hot, hyst, prev, v) {
        assert !held[raw];
        if h > raw {
          assert held[h];
          OverlapOrdersAll(hot, hyst, raw, h);
        }
      } else {
        assert held[raw];
      }
    }
  }

  /** Reading the same value again changes nothing, except exactly at a Tie. */
  lemma {:induction false} RepeatIsStable(hot: Thresholds, hyst: Hysteresis, prev: Severity, v: real)
    requires NoOverlap(hot, hyst) && NonNegative(hyst) && Configured(hot, prev)
    ensures var once := NextHot(hot, hyst, prev, v);
            NextHot(hot, hyst, once, v) == once <==> !Tie(hot, hyst, prev, v)
  {
    NextHotLower(hot, hyst, prev, v);
    NextHotUpper(hot, hyst, prev, v);
  }

  /** The Tie happens: thresholds 10 and 20, the default hysteresis of zero, falling from the
      second level to exactly 10 reports NONE first and level 1 on the next identical reading. */
  lemma TieExample()
    ensures var hot := [NaN, Num(10.0), Num(20.0), NaN, NaN, NaN, NaN];
            var hyst := [0.0, 0.0, 0.0, 0.0, 0.0, 0.0, 0.0];
            && NoOverlap(hot, hyst) && NonNegative(hyst)
            && NextHot(hot, hyst, 2, 10.0) == 0
            && NextHot(hot, hyst, 0, 10.0) == 1
  {
    var hot := [NaN, Num(10.0), Num(20.0), NaN, NaN, NaN, NaN];
    var hyst := [0.0, 0.0, 0.0, 0.0, 0.0, 0.0, 0.0];
    var reached, held := HotReached(hot, 10.0), HotHeld(hot, hyst, 10.0);
    assert reached == [false, true, false, false, false, false, false];
    assert held == [false, false, false, false, false, false, false];
    assert reached[1] && !reached[6] && !reached[5] && !reached[4] && !reached[3] && !reached[2];
    assert !held[6] && !held[5] && !held[4] && !held[3] && !held[2] && !held[1];
    assert Highest(reached, 6) == 1;
    assert NoOverlap(hot, hyst) by {
      forall j: nat, k: nat | NextConfigured(hot, j, k) ensures hot[j].value <= hot[k].value - hyst[k] {
        assert j == 1 && k == 2;
      }
    }
  }

  /** A level is entered only at or above its threshold and left only at or below its release point. */
  lemma {:induction false} HotEnterLeave(hot: Thresholds, hyst: Hysteresis, prev: Severity, v: real, i: Severity)
    requires NoOverlap(hot, hyst) && NonNegative(hyst) && Configured(hot, prev)
    requires i > 0 && hot[i].Num?
    ensures prev < i <= NextHot(hot, hyst, prev, v) ==> v >= hot[i].value
    ensures NextHot(hot, hyst, prev, v) < i <= prev ==> v <= hot[i].value - hyst[i]
  {
    var reached, held := HotReached(hot, v), HotHeld(hot, hyst, v);
    var raw := Highest(reached, 6);
    NextHotUpper(hot, hyst, prev, v);
    if prev < i <= raw {
      assert reached[raw];
      if i < raw { OverlapOrdersAll(hot, hyst, i, raw); }
    }
    if Highest(held, 6) < i { assert !held[i]; }
  }

  // ----- Runs -----

  /** The stored hot severity after a run of readings. */
  function HotAfter(hot: Thresholds, hyst: Hysteresis, start: Severity, run: seq<real>): Severity {
    if run == [] then start
    else NextHot(hot, hyst, HotAfter(hot, hyst, start, run[..|run| - 1]), run[|run| - 1])
  }

  /** How often a run crosses level i, in either direction. */
  function Crossings(hot: Thresholds, hyst: Hysteresis, start: Severity, run: seq<real>, i: Severity): nat {
    if run == [] then 0 else
      var before := run[..|run| - 1];
      Crossings(hot, hyst, start, before, i)
      + if (HotAfter(hot, hyst, start, before) >= i) != (HotAfter(hot, hyst, start, run) >= i) then 1 else 0
  }

  function Distance(a: real, b: real): real {
    if a > b then a - b else b - a
  }

  /** Total variation of the readings. */
  function Variation(run: seq<real>): real {
    if |run| < 2 then 0.0
    else Variation(run[..|run| - 1]) + Distance(run[|run| - 2], run[|run| - 1])
  }

  /** n times h, by repeated addition. */
  function Times(n: nat, h: real): real {
    if n == 0 then 0.0 else Times(n - 1, h) + h
  }

  lemma {:induction false} TimesIsProduct(n: nat, h: real)
    ensures Times(n, h) == n as real * h
  {
    if n > 0 {
      TimesIsProduct(n - 1, h);
      assert n as real * h == (n - 1) as real * h + h;
    }
  }

  /** How far the last reading has already travelled towards the next crossing of level i. */
  function Progress(top: real, gap: real, inside: bool, v: real): real {
    var gone := if inside then top - v else v - (top - gap);
    if gone > 0.0 then gone else 0.0
  }

  /** One more reading: the movement it adds pays for the crossing it may cause. */
  lemma ChatterStep(top: real, gap: real, was: bool, now: bool, u: real, v: real, crossed: real)
    requires gap >= 0.0
    requires !was && now ==> v >= top
    requires was && !now ==> v <= top - gap
    ensures crossed + Progress(top, gap, was, u) + Distance(u, v)
         >= crossed + (if was != now then gap else 0.0) + Progress(top, gap, now, v)
  {
  }

  lemma {:induction false} HotAfterConfigured(hot: Thresholds, hyst: Hysteresis, start: Severity, run: seq<real>)
    requires Configured(hot, start)
    ensures Configured(hot, HotAfter(hot, hyst, start, run))
  {
    if run != [] {
      NextHotConfigured(hot, hyst, HotAfter(hot, hyst, start, run[..|run| - 1]), run[|run| - 1]);
    }
  }

  /** The movement pays for every crossing after the
      first and for the progress made towards the next one. */
  ghost predicate Paid(variation: real, crossings: nat, gap: real, progress: real) {
    variation >= 0.0 && (crossings > 0 ==> variation >= Times(crossings - 1, gap) + progress)
  }

  lemma PaidStep(variation: real, c: nat, top: real, gap: real, was: bool, now: bool, u: real, v: real)
    requires gap >= 0.0
    requires !was && now ==> v >= top
    requires was && !now ==> v <= top - gap
    requires Paid(variation, c, gap, Progress(top, gap, was, u))
    ensures Paid(variation + Distance(u, v), if was != now then c + 1 else c, gap, Progress(top, gap, now, v))
  {
    if c > 0 { ChatterStep(top, gap, was, now, u, v, Times(c - 1, gap)); }
  }

  /** Chatter bound: over any run of readings, every crossing of level i after the first has been
      paid for with at least that level's hysteresis in temperature movement. */
  lemma {:induction false} ChatterBound(hot: Thresholds, hyst: Hysteresis, start: Severity, run: seq<real>, i: Severity)
    requires NoOverlap(hot, hyst) && NonNegative(hyst) && Configured(hot, start)
    requires i > 0 && hot[i].Num? && run != []
    ensures Crossings(hot, hyst, start, run, i) > 0 ==>
              Times(Crossings(hot, hyst, start, run, i) - 1, hyst[i]) <= Variation(run)
    ensures Paid(Variation(run), Crossings(hot, hyst, start, run, i), hyst[i],
                 Progress(hot[i].value, hyst[i], HotAfter(hot, hyst, start, run) >= i, run[|run| - 1]))
  {
    var n := |run| - 1;
    var before, v := run[..n], run[n];
    var was, now := HotAfter(hot, hyst, start, before) >= i, HotAfter(hot, hyst, start, run) >= i;
    HotAfterConfigured(hot, hyst, start, before);
    HotEnterLeave(hot, hyst, HotAfter(hot, hyst, start, before), v, i);
    if n > 0 {
      ChatterBound(hot, hyst, start, before, i);
      var c := Crossings(hot, hyst, start, before, i);
      assert Variation(run) == Variation(before) + Distance(before[n - 1], v);
      assert Crossings(hot, hyst, start, run, i) == if was != now then c + 1 else c;
      PaidStep(Variation(before), c, hot[i].value, hyst[i], was, now, before[n - 1], v);
    } else {
      assert before == [];
    }
  }

  // ----- The cold side is the hot side mirrored -----

  function Mirror(a: Thresholds): Thresholds {
    seq(7, i requires 0 <= i < 7 => if a[i].Num? then Num(-a[i].value) else NaN)
  }

  /** The stored cold severity after a run of readings. */
  function ColdAfter(cold: Thresholds, hyst: Hysteresis, start: Severity, run: seq<real>): Severity {
    if run == [] then start
    else NextCold(cold, hyst, ColdAfter(cold, hyst, start, run[..|run| - 1]), run[|run| - 1])
  }

  function Negated(run: seq<real>): (r: seq<real>)
    ensures |r| == |run|
  {
    seq(|run|, i requires 0 <= i < |run| => -run[i])
  }

  /** So the chatter bound holds for the cold severity of a run as well. */
  lemma {:induction false} ColdAfterMirrors(cold: Thresholds, hyst: Hysteresis, start: Severity, run: seq<real>)
    ensures ColdAfter(cold, hyst, start, run) == HotAfter(Mirror(cold), hyst, start, Negated(run))
  {
    if run != [] {
      var n := |run| - 1;
      ColdAfterMirrors(cold, hyst, start, run[..n]);
      ColdMirrorsHot(cold, hyst, ColdAfter(cold, hyst, start, run[..n]), run[n]);
      assert Negated(run)[..n] == Negated(run[..n]);
    }
  }

  /** Without cold thresholds there is never a cold severity. */
  lemma {:induction false} ColdSilent(cold: Thresholds, hyst: Hysteresis, run: seq<real>)
    requires forall i | 0 <= i <= 6 :: cold[i].NaN?
    ensures ColdAfter(cold, hyst, NONE, run) == NONE
  {
    if run != [] {
      ColdSilent(cold, hyst, run[..|run| - 1]);
      var v := run[|run| - 1];
      assert !ColdReached(cold, v)[Highest(ColdReached(cold, v), 6)];
    }
  }

  /** Cold severity on a value is hot severity on the negated value and thresholds, so every
      statement above holds for the cold thresholds as well. */
  lemma ColdMirrorsHot(cold: Thresholds, hyst: Hysteresis, prev: Severity, v: real)
    ensures NextCold(cold, hyst, prev, v) == NextHot(Mirror(cold), hyst, prev, -v)
  {
    assert ColdReached(cold, v) == HotReached(Mirror(cold), -v);
    assert ColdHeld(cold, hyst, v) == HotHeld(Mirror(cold), hyst, -v);
  }
}
