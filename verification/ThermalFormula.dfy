/** The weighted formulas of virtual sensors: the running sum of the coefficient loop, and what it amounts to. */
module ThermalFormula {
  /** Estimated stands for the two estimator formulas. */
  datatype Formula = CountThreshold | WeightedAvg | Maximum | Minimum | Estimated | PreviouslyPredicted

  /** One turn of the coefficient loop. */
  function Contribution(formula: Formula, soFar: real, first: bool, reading: real, coefficient: real): real {
    match formula
    case CountThreshold =>
      var counts := (coefficient < 0.0 && reading < -coefficient) || (coefficient >= 0.0 && reading >= coefficient);
      if counts then soFar + 1.0 else soFar
    case WeightedAvg => soFar + reading * coefficient
    case Maximum => if first || reading * coefficient > soFar then reading * coefficient else soFar
    case Minimum => if first || reading * coefficient < soFar then reading * coefficient else soFar
    case _ => soFar
  }

  function Combine(formula: Formula, readings: seq<real>, coefficients: seq<real>): real
    requires |readings| == |coefficients|
  {
    if readings == [] then 0.0 else
    var n := |readings| - 1;
    Contribution(formula, Combine(formula, readings[..n], coefficients[..n]), n == 0, readings[n], coefficients[n])
  }

  lemma CombineNext(formula: Formula, readings: seq<real>, coefficients: seq<real>, next: real)
    requires |coefficients| < |readings|
    ensures var n := |coefficients|;
      Combine(formula, readings[..n + 1], coefficients + [next])
      == Contribution(formula, Combine(formula, readings[..n], coefficients), n == 0, readings[n], next)
  {
    var n := |coefficients|;
    assert readings[..n + 1][..n] == readings[..n] && (coefficients + [next])[..n] == coefficients;
  }

  lemma CombineNone(formula: Formula)
    ensures Combine(formula, [], []) == 0.0
  {
  }

  lemma CombineLast(formula: Formula, readings: seq<real>, coefficients: seq<real>)
    requires |readings| == |coefficients| > 0
    ensures var n := |readings| - 1;
      Combine(formula, readings, coefficients)
      == Contribution(formula, Combine(formula, readings[..n], coefficients[..n]), n == 0, readings[n], coefficients[n])
  {
    hide Contribution;
  }

  // ----- Weighted average: the one function that is linear in the coefficients and picks single readings -----

  function Scaled(k: real, coefficients: seq<real>): (r: seq<real>)
    ensures |r| == |coefficients|
  {
    seq(|coefficients|, i requires 0 <= i < |coefficients| => k * coefficients[i])
  }

  function Added(a: seq<real>, b: seq<real>): (r: seq<real>)
    requires |a| == |b|
    ensures |r| == |a|
  {
    seq(|a|, i requires 0 <= i < |a| => a[i] + b[i])
  }

  function Unit(n: nat, at: nat): (r: seq<real>)
    ensures |r| == n
  {
    seq(n, i => if i == at then 1.0 else 0.0)
  }

  lemma {:induction false} AverageScales(readings: seq<real>, k: real, coefficients: seq<real>)
    requires |readings| == |coefficients|
    ensures Combine(WeightedAvg, readings, Scaled(k, coefficients)) == k * Combine(WeightedAvg, readings, coefficients)
  {
    if readings != [] {
      var n := |readings| - 1;
      AverageScales(readings[..n], k, coefficients[..n]);
      forall i | 0 <= i < n ensures Scaled(k, coefficients)[..n][i] == Scaled(k, coefficients[..n])[i] {
        assert coefficients[..n][i] == coefficients[i];
      }
      assert Scaled(k, coefficients)[..n] == Scaled(k, coefficients[..n]);
      Distribute(k, Combine(WeightedAvg, readings[..n], coefficients[..n]), readings[n], coefficients[n]);
    }
  }

  lemma Distribute(k: real, sum: real, reading: real, coefficient: real)
    ensures k * sum + reading * (k * coefficient) == k * (sum + reading * coefficient)
  {
  }

  lemma {:induction false} AverageAdds(readings: seq<real>, a: seq<real>, b: seq<real>)
    requires |readings| == |a| == |b|
    ensures Combine(WeightedAvg, readings, Added(a, b))
         == Combine(WeightedAvg, readings, a) + Combine(WeightedAvg, readings, b)
  {
    if readings != [] {
      var n := |readings| - 1;
      AverageAdds(readings[..n], a[..n], b[..n]);
      assert Added(a, b)[..n] == Added(a[..n], b[..n]);
      assert readings[n] * (a[n] + b[n]) == readings[n] * a[n] + readings[n] * b[n];
    }
  }

  lemma {:induction false} AveragePicks(readings: seq<real>, n: nat, at: nat)
    requires |readings| == n
    ensures Combine(WeightedAvg, readings, Unit(n, at)) == if at < n then readings[at] else 0.0
  {
    if n > 0 {
      AveragePicks(readings[..n - 1], n - 1, at);
      assert Unit(n, at)[..n - 1] == Unit(n - 1, at);
    }
  }

  /** The sum of the products, from the first input on. */
  function Dot(readings: seq<real>, coefficients: seq<real>): real
    requires |readings| == |coefficients|
  {
    if readings == [] then 0.0 else readings[0] * coefficients[0] + Dot(readings[1..], coefficients[1..])
  }

  lemma {:induction false} DotLast(readings: seq<real>, coefficients: seq<real>, x: real, c: real)
    requires |readings| == |coefficients|
    ensures Dot(readings + [x], coefficients + [c]) == Dot(readings, coefficients) + x * c
  {
    if readings == [] {
      assert readings + [x] == [x] && coefficients + [c] == [c] && [x][1..] == [] && [c][1..] == [];
    } else {
      assert (readings + [x])[1..] == readings[1..] + [x] && (coefficients + [c])[1..] == coefficients[1..] + [c];
      DotLast(readings[1..], coefficients[1..], x, c);
    }
  }

  lemma {:induction false} AverageIsDot(readings: seq<real>, coefficients: seq<real>)
    requires |readings| == |coefficients|
    ensures Combine(WeightedAvg, readings, coefficients) == Dot(readings, coefficients)
  {
    if readings != [] {
      var n := |readings| - 1;
      AverageIsDot(readings[..n], coefficients[..n]);
      DotLast(readings[..n], coefficients[..n], readings[n], coefficients[n]);
      assert readings == readings[..n] + [readings[n]] && coefficients == coefficients[..n] + [coefficients[n]];
    }
  }

  /** Two readings of 40 and 50, weighted 0.3 and 0.7, average 47. */
  lemma AverageExample()
    ensures Combine(WeightedAvg, [40.0, 50.0], [0.3, 0.7]) == 47.0
  {
    assert [40.0, 50.0][..1] == [40.0] && [0.3, 0.7][..1] == [0.3];
    assert Combine(WeightedAvg, [40.0][..0], [0.3][..0]) == 0.0;
    assert Combine(WeightedAvg, [40.0], [0.3]) == 12.0;
  }

  // ----- Maximum and minimum -----

  /** What the formula compares: the product of each reading with its coefficient. */
  function Products(readings: seq<real>, coefficients: seq<real>): (r: seq<real>)
    requires |readings| == |coefficients|
    ensures |r| == |readings|
  {
    seq(|readings|, i requires 0 <= i < |readings| => readings[i] * coefficients[i])
  }

  lemma ProductAt(readings: seq<real>, coefficients: seq<real>, i: nat)
    requires i < |readings| == |coefficients|
    ensures Products(readings, coefficients)[i] == readings[i] * coefficients[i]
  {
  }

  lemma ProductsFront(readings: seq<real>, coefficients: seq<real>, n: nat)
    requires |readings| == |coefficients| && n <= |readings|
    ensures Products(readings, coefficients)[..n] == Products(readings[..n], coefficients[..n])
  {
    var all, front := Products(readings, coefficients), Products(readings[..n], coefficients[..n]);
    forall i | 0 <= i < n ensures all[..n][i] == front[i] {
      assert readings[..n][i] == readings[i] && coefficients[..n][i] == coefficients[i];
    }
  }

  lemma LastProduct(formula: Formula, readings: seq<real>, coefficients: seq<real>)
    requires |readings| == |coefficients| > 0 && (formula.Maximum? || formula.Minimum?)
    ensures var n := |readings| - 1;
            var before, last := Combine(formula, readings[..n], coefficients[..n]), Products(readings, coefficients)[n];
            Combine(formula, readings, coefficients)
            == if n == 0 || (if formula.Maximum? then last > before else last < before) then last else before
  {
    hide Combine, Products;
    var n := |readings| - 1;
    CombineLast(formula, readings, coefficients);
    ProductAt(readings, coefficients, n);
  }

  /** The maximum bounds every product of a reading and its coefficient and is one of them. */
  lemma {:induction false} MaximumIsGreatest(readings: seq<real>, coefficients: seq<real>)
    requires |readings| == |coefficients| > 0
    ensures var ps, top := Products(readings, coefficients), Combine(Maximum, readings, coefficients);
            (forall i | 0 <= i < |ps| :: ps[i] <= top) && top in ps
  {
    hide Combine, Products;
    var n := |readings| - 1;
    var ps := Products(readings, coefficients);
    LastProduct(Maximum, readings, coefficients);
    ProductsFront(readings, coefficients, n);
    if n > 0 { MaximumIsGreatest(readings[..n], coefficients[..n]); }
    assert forall i | 0 <= i < n :: ps[i] == ps[..n][i];
  }

  lemma {:induction false} MinimumIsLeast(readings: seq<real>, coefficients: seq<real>)
    requires |readings| == |coefficients| > 0
    ensures var ps, low := Products(readings, coefficients), Combine(Minimum, readings, coefficients);
            (forall i | 0 <= i < |ps| :: ps[i] >= low) && low in ps
  {
    hide Combine, Products;
    var n := |readings| - 1;
    var ps := Products(readings, coefficients);
    LastProduct(Minimum, readings, coefficients);
    ProductsFront(readings, coefficients, n);
    if n > 0 { MinimumIsLeast(readings[..n], coefficients[..n]); }
    assert forall i | 0 <= i < n :: ps[i] == ps[..n][i];
  }

  // ----- Counting thresholds -----

  predicate Meets(reading: real, threshold: real) {
    if threshold < 0.0 then reading < -threshold else reading >= threshold
  }

  /** The inputs that meet their threshold: below it when the coefficient is negative, at or above it otherwise. */
  function Meeting(readings: seq<real>, coefficients: seq<real>): set<nat>
    requires |readings| == |coefficients|
  {
    set i: nat | i < |readings| && Meets(readings[i], coefficients[i])
  }

  lemma {:induction false} CountIsNumber(readings: seq<real>, coefficients: seq<real>)
    requires |readings| == |coefficients|
    ensures Combine(CountThreshold, readings, coefficients) == |Meeting(readings, coefficients)| as real
  {
    if readings != [] {
      var n := |readings| - 1;
      CountIsNumber(readings[..n], coefficients[..n]);
      var before, all := Meeting(readings[..n], coefficients[..n]), Meeting(readings, coefficients);
      if n in all {
        assert all == before + {n};
      } else {
        assert all == before;
      }
    }
  }

  /** What a weighted formula makes of its inputs, without its running sum. */
  ghost predicate Means(formula: Formula, readings: seq<real>, coefficients: seq<real>, result: real)
    requires |readings| == |coefficients|
  {
    match formula
    case WeightedAvg => result == Dot(readings, coefficients)
    case CountThreshold => result == |Meeting(readings, coefficients)| as real
    case Maximum =>
      var ps := Products(readings, coefficients);
      ps != [] ==> (forall i | 0 <= i < |ps| :: ps[i] <= result) && result in ps
    case Minimum =>
      var ps := Products(readings, coefficients);
      ps != [] ==> (forall i | 0 <= i < |ps| :: ps[i] >= result) && result in ps
    case _ => true
  }

  lemma CombineMeans(formula: Formula, readings: seq<real>, coefficients: seq<real>)
    requires |readings| == |coefficients|
    ensures Means(formula, readings, coefficients, Combine(formula, readings, coefficients))
  {
    hide Combine, Products, Dot, Meeting;
    match formula
    case WeightedAvg => AverageIsDot(readings, coefficients);
    case CountThreshold => CountIsNumber(readings, coefficients);
    case Maximum => if readings != [] { MaximumIsGreatest(readings, coefficients); }
    case Minimum => if readings != [] { MinimumIsLeast(readings, coefficients); }
    case _ =>
  }
}
