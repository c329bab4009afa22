/// Relations between runs of the valuation: modes that agree, analogs in another order, other units of
/// money, another scale constant, analogs that match the subject.

module Invariances {
  import opened Apartment
  import opened Rounding
  import opened Valuation
  import opened Reconciliation

  // ---------- Location modes ----------

  lemma ShiftedRatio(x: real, y: real)
    requires y > 0.0
    ensures 1.0 + (x - y) / y == x / y
    ensures x == y ==> x / y == 1.0
  {
    assert (x - y) / y == x / y - y / y;
  }

  /// Every mode computes the ratio of the two district prices.
  lemma LocationIsRatio(cfg: FormulaConfig, s: Subject, a: Analog)
    ensures LocationFactor(cfg, s, a) == DistrictPriceOf(cfg, s.district) / DistrictPriceOf(cfg, a.district)
  {
    ShiftedRatio(DistrictPriceOf(cfg, s.district), DistrictPriceOf(cfg, a.district));
  }

  /// Two configurations that adjust each analog alike calculate the same result.
  lemma SameChainsSameResult(cfg: FormulaConfig, cfg': FormulaConfig, pow: Power, input: CalculationInput, now: int)
    requires input.subject.area > 0.0 && |input.analogs| >= 2
    requires forall i :: 0 <= i < |input.analogs| ==>
      ChainOf(cfg, pow, input.subject, input.analogs[i]) == ChainOf(cfg', pow, input.subject, input.analogs[i])
    ensures Calculate(cfg, pow, input, now) == Calculate(cfg', pow, input, now)
  {
    assert Adjusted(cfg, pow, input) == Adjusted(cfg', pow, input);
  }

  lemma SameFactorsSameChain(cfg: FormulaConfig, cfg': FormulaConfig, pow: Power, s: Subject, a: Analog)
    requires s.area > 0.0
    requires LocationFactor(cfg, s, a) == LocationFactor(cfg', s, a)
    requires AreaFactor(cfg, pow, s, a) == AreaFactor(cfg', pow, s, a)
    requires RepairDelta(cfg, s, a) == RepairDelta(cfg', s, a)
    requires cfg.repairMode == cfg'.repairMode && cfg.floors == cfg'.floors
    ensures ChainOf(cfg, pow, s, a) == ChainOf(cfg', pow, s, a)
  {
  }

  /// The location mode never matters, for any configuration and any two mode names.
  lemma LocationModesAgree(cfg: FormulaConfig, mode: string, pow: Power, input: CalculationInput, now: int)
    requires input.subject.area > 0.0 && |input.analogs| >= 2
    ensures Calculate(cfg.(locationMode := mode), pow, input, now) == Calculate(cfg, pow, input, now)
  {
    var cfg' := cfg.(locationMode := mode);
    forall i | 0 <= i < |input.analogs|
      ensures ChainOf(cfg, pow, input.subject, input.analogs[i]) == ChainOf(cfg', pow, input.subject, input.analogs[i])
    {
      LocationIsRatio(cfg, input.subject, input.analogs[i]);
      LocationIsRatio(cfg', input.subject, input.analogs[i]);
      SameFactorsSameChain(cfg, cfg', pow, input.subject, input.analogs[i]);
    }
    SameChainsSameResult(cfg, cfg', pow, input, now);
  }

  // ---------- Repair modes ----------

  lemma PositiveRatio(x: real, y: real)
    requires x > 0.0 && y > 0.0
    ensures x / y > 0.0
  {
    assert x / y * y == x;
  }

  lemma LocationPositive(cfg: FormulaConfig, s: Subject, a: Analog)
    ensures LocationFactor(cfg, s, a) > 0.0
  {
    LocationIsRatio(cfg, s, a);
    PositiveRatio(DistrictPriceOf(cfg, s.district), DistrictPriceOf(cfg, a.district));
  }

  lemma SignOfProduct(x: real, k: real)
    requires k > 0.0
    ensures Scaled(x, k) > 0.0 <==> x > 0.0
    ensures Scaled(x, k) == 0.0 <==> x == 0.0
  {
  }

  lemma SignOfScale(a: real, p: real)
    requires p > 0.0 && a * p > 0.0
    ensures a > 0.0
  {
  }

  lemma AreaPositive(cfg: FormulaConfig, pow: Power, s: Subject, a: Analog)
    requires PositivePower(pow) && s.area > 0.0 && a.area > 0.0
    ensures AreaFactor(cfg, pow, s, a) > 0.0
  {
    var ps, pa := pow(s.area, cfg.scale.b), pow(a.area, cfg.scale.b);
    if AreaScale(cfg, pow, a.area) > 0.0 {
      SignOfScale(cfg.scale.a, pa);
      SignOfProduct(cfg.scale.a, ps);
      assert AreaScale(cfg, pow, s.area) == Scaled(cfg.scale.a, ps);
      PositiveRatio(AreaScale(cfg, pow, s.area), AreaScale(cfg, pow, a.area));
    }
  }

  /// The price after the area step has the sign of 100 minus the bargaining percent, whatever the configuration.
  lemma AreaPriceSign(cfg: FormulaConfig, pow: Power, s: Subject, a: Analog)
    requires PositivePower(pow) && s.area > 0.0 && a.area > 0.0 && a.price > 0.0
    ensures ChainOf(cfg, pow, s, a).x3 > 0.0 <==> a.bargaining < 100.0
    ensures ChainOf(cfg, pow, s, a).x3 == 0.0 <==> a.bargaining == 100.0
  {
    var x1 := Bargained(a);
    LocationPositive(cfg, s, a);
    AreaPositive(cfg, pow, s, a);
    SignOfProduct(1.0 - a.bargaining / 100.0, a.price);
    assert x1 == Scaled(1.0 - a.bargaining / 100.0, a.price);
    SignOfProduct(x1, LocationFactor(cfg, s, a));
    SignOfProduct(Scaled(x1, LocationFactor(cfg, s, a)), AreaFactor(cfg, pow, s, a));
  }

  const DIRECT := "multiplicative_direct"

  /// The two ways to apply the repair difference agree on positive prices; otherwise the additive one is
  /// larger by exactly the difference.
  lemma RepairModes(mode: string, price: real, delta: real)
    requires mode != DIRECT
    ensures Repaired(mode, price, delta) == Repaired(DIRECT, price, delta) + if price > 0.0 then 0.0 else delta
  {
    if price > 0.0 {
      assert delta / price * price == delta;
      assert price * (1.0 + delta / price) == price + price * (delta / price);
    }
  }

  lemma FactorsIgnoreRepairMode(cfg: FormulaConfig, mode: string, pow: Power, s: Subject, a: Analog)
    requires s.area > 0.0
    ensures var cfg' := cfg.(repairMode := mode);
      && LocationFactor(cfg', s, a) == LocationFactor(cfg, s, a)
      && AreaFactor(cfg', pow, s, a) == AreaFactor(cfg, pow, s, a)
      && RepairDelta(cfg', s, a) == RepairDelta(cfg, s, a)
      && FloorFactor(cfg', s, a) == FloorFactor(cfg, s, a)
  {
  }

  /// The repair mode touches nothing but the price after the repair step and what follows from it.
  lemma RepairChainsShare(cfg: FormulaConfig, mode: string, pow: Power, s: Subject, a: Analog)
    requires s.area > 0.0
    ensures var c, d := ChainOf(cfg.(repairMode := mode), pow, s, a), ChainOf(cfg.(repairMode := DIRECT), pow, s, a);
      c == d.(x4 := c.x4, x5 := Scaled(c.x4, d.k4)) && d.x5 == Scaled(d.x4, d.k4)
      && c.x4 == Repaired(mode, d.x3, d.delta) && d.x4 == Repaired(DIRECT, d.x3, d.delta)
      && d.delta == RepairDelta(cfg, s, a)
  {
    FactorsIgnoreRepairMode(cfg, mode, pow, s, a);
    FactorsIgnoreRepairMode(cfg, DIRECT, pow, s, a);
  }

  lemma RepairChains(cfg: FormulaConfig, mode: string, pow: Power, s: Subject, a: Analog)
    requires mode != DIRECT && PositivePower(pow) && s.area > 0.0 && a.area > 0.0 && a.price > 0.0
    ensures var c, d := ChainOf(cfg.(repairMode := mode), pow, s, a), ChainOf(cfg.(repairMode := DIRECT), pow, s, a);
      && c.x4 == d.x4 + (if a.bargaining < 100.0 then 0.0 else RepairDelta(cfg, s, a))
      && (a.bargaining < 100.0 || RepairDelta(cfg, s, a) == 0.0 ==> c == d)
  {
    var c, d := ChainOf(cfg.(repairMode := mode), pow, s, a), ChainOf(cfg.(repairMode := DIRECT), pow, s, a);
    AreaPriceSign(cfg.(repairMode := DIRECT), pow, s, a);
    RepairModes(mode, d.x3, d.delta);
    RepairChainsShare(cfg, mode, pow, s, a);
  }

  lemma ReportsRepairPrice(cfg: FormulaConfig, pow: Power, input: CalculationInput, now: int, i: nat)
    requires input.subject.area > 0.0 && i < |input.analogs| && |input.analogs| >= 2
    ensures Calculate(cfg, pow, input, now).analogs[i].priceAfterRepair ==
      ChainOf(cfg, pow, input.subject, input.analogs[i]).x4
  {
  }

  /// Whole calculations in the two repair modes are the same if and only if every analog has a bargaining
  /// percent below 100 or no repair difference.
  lemma RepairModesAgreeIff(cfg: FormulaConfig, mode: string, pow: Power, input: CalculationInput, now: int)
    requires mode != DIRECT && PositivePower(pow) && ValidInput(input)
    ensures Calculate(cfg.(repairMode := mode), pow, input, now) ==
      Calculate(cfg.(repairMode := DIRECT), pow, input, now)
      <==> forall i :: 0 <= i < 4 ==>
        input.analogs[i].bargaining < 100.0 || RepairDelta(cfg, input.subject, input.analogs[i]) == 0.0
  {
    var cfg1, cfg2 := cfg.(repairMode := mode), cfg.(repairMode := DIRECT);
    var s := input.subject;
    forall i | 0 <= i < 4
      ensures ChainOf(cfg1, pow, s, input.analogs[i]).x4 == ChainOf(cfg2, pow, s, input.analogs[i]).x4
              + (if input.analogs[i].bargaining < 100.0 then 0.0 else RepairDelta(cfg, s, input.analogs[i]))
      ensures input.analogs[i].bargaining < 100.0 || RepairDelta(cfg, s, input.analogs[i]) == 0.0 ==>
                ChainOf(cfg1, pow, s, input.analogs[i]) == ChainOf(cfg2, pow, s, input.analogs[i])
    {
      RepairChains(cfg, mode, pow, s, input.analogs[i]);
    }
    if forall i :: 0 <= i < 4 ==> input.analogs[i].bargaining < 100.0 || RepairDelta(cfg, s, input.analogs[i]) == 0.0 {
      SameChainsSameResult(cfg1, cfg2, pow, input, now);
    }
    if Calculate(cfg1, pow, input, now) == Calculate(cfg2, pow, input, now) {
      forall i | 0 <= i < 4
        ensures ChainOf(cfg1, pow, s, input.analogs[i]).x4 == ChainOf(cfg2, pow, s, input.analogs[i]).x4
      {
        ReportsRepairPrice(cfg1, pow, input, now, i);
        ReportsRepairPrice(cfg2, pow, input, now, i);
      }
    }
  }

  // ---------- Order of the analogs ----------

  function Map<T>(f: T -> real, xs: seq<T>): (ys: seq<real>)
    ensures |ys| == |xs|
  {
    seq(|xs|, i requires 0 <= i < |xs| => f(xs[i]))
  }

  lemma {:induction false} SumRemove(xs: seq<real>, j: nat)
    requires j < |xs|
    ensures Sum(xs) == Sum(xs[..j] + xs[j + 1..]) + xs[j]
  {
    var n := |xs| - 1;
    if j < n {
      SumRemove(xs[..n], j);
      var rest := xs[..j] + xs[j + 1..];
      assert rest[..|rest| - 1] == xs[..n][..j] + xs[..n][j + 1..];
      assert rest[|rest| - 1] == xs[n];
    } else {
      assert xs[..j] + xs[j + 1..] == xs[..n];
    }
  }

  /// Taking one occurrence of an element out of two reorderings leaves reorderings.
  lemma TakeOut<T>(xs: seq<T>, ys: seq<T>) returns (j: nat)
    requires xs != [] && multiset(xs) == multiset(ys)
    ensures j < |ys| && ys[j] == xs[|xs| - 1]
    ensures multiset(xs[..|xs| - 1]) == multiset(ys[..j] + ys[j + 1..])
  {
    var n := |xs| - 1;
    var x := xs[n];
    assert xs == xs[..n] + [x];
    assert x in multiset(ys);
    j :| 0 <= j < |ys| && ys[j] == x;
    assert ys == ys[..j] + [x] + ys[j + 1..];
    assert multiset(ys[..j] + ys[j + 1..]) == multiset(ys) - multiset{x};
    assert multiset(xs[..n]) == multiset(xs) - multiset{x};
  }

  /// A sum over a collection does not depend on its order.
  lemma {:induction false} SumOrderless<T>(f: T -> real, xs: seq<T>, ys: seq<T>)
    requires multiset(xs) == multiset(ys)
    ensures Sum(Map(f, xs)) == Sum(Map(f, ys))
    decreases |xs|
  {
    if xs == [] {
      assert |ys| == |multiset(ys)| == 0;
    } else {
      var n := |xs| - 1;
      var j := TakeOut(xs, ys);
      var rest := ys[..j] + ys[j + 1..];
      SumOrderless(f, xs[..n], rest);
      assert Map(f, xs)[..n] == Map(f, xs[..n]);
      SumRemove(Map(f, ys), j);
      assert Map(f, ys)[..j] + Map(f, ys)[j + 1..] == Map(f, rest);
    }
  }

  /// The adjustment total and the adjusted price as functions of the analog alone.
  function TotalOf(cfg: FormulaConfig, pow: Power, s: Subject): Analog -> real
    requires s.area > 0.0
  {
    a => Adjust(cfg, pow, s, a, 0).totalAbsAdjustment
  }

  function TermOf(cfg: FormulaConfig, pow: Power, s: Subject, sumM: real, n: int): Analog -> real
    requires s.area > 0.0 && n >= 2
  {
    a => Scaled(Adjust(cfg, pow, s, a, 0).priceAfterFloor,
      Weight(Adjust(cfg, pow, s, a, 0).totalAbsAdjustment, sumM, n))
  }

  lemma TotalsByAnalog(cfg: FormulaConfig, pow: Power, input: CalculationInput)
    requires input.subject.area > 0.0
    ensures Totals(Adjusted(cfg, pow, input)) == Map(TotalOf(cfg, pow, input.subject), input.analogs)
  {
  }

  lemma TermsByAnalog(cfg: FormulaConfig, pow: Power, input: CalculationInput)
    requires input.subject.area > 0.0 && |input.analogs| >= 2
    ensures var rs := Adjusted(cfg, pow, input);
      Products(Prices(rs), Weights(Totals(rs))) ==
        Map(TermOf(cfg, pow, input.subject, Sum(Totals(rs)), |input.analogs|), input.analogs)
  {
  }

  ghost predicate Reordered(input: CalculationInput, input': CalculationInput) {
    input.subject == input'.subject && multiset(input.analogs) == multiset(input'.analogs)
  }

  lemma SumsOrderless(cfg: FormulaConfig, pow: Power, input: CalculationInput, input': CalculationInput)
    requires input.subject.area > 0.0 && |input.analogs| >= 2 && Reordered(input, input')
    ensures |input'.analogs| == |input.analogs|
    ensures Sum(Totals(Adjusted(cfg, pow, input))) == Sum(Totals(Adjusted(cfg, pow, input')))
    ensures RawPrice(Adjusted(cfg, pow, input)) == RawPrice(Adjusted(cfg, pow, input'))
  {
    assert |input.analogs| == |multiset(input.analogs)| == |input'.analogs|;
    TotalsByAnalog(cfg, pow, input);
    TotalsByAnalog(cfg, pow, input');
    SumOrderless(TotalOf(cfg, pow, input.subject), input.analogs, input'.analogs);
    TermsByAnalog(cfg, pow, input);
    TermsByAnalog(cfg, pow, input');
    var sumM := Sum(Totals(Adjusted(cfg, pow, input)));
    SumOrderless(TermOf(cfg, pow, input.subject, sumM, |input.analogs|), input.analogs, input'.analogs);
  }

  /// Reordering the analogs keeps the sum of adjustments, the price and the total.
  lemma OrderIrrelevant(cfg: FormulaConfig, pow: Power, input: CalculationInput, input': CalculationInput, now: int)
    requires input.subject.area > 0.0 && |input.analogs| >= 2 && Reordered(input, input')
    ensures |input'.analogs| == |input.analogs|
    ensures var r, r' := Calculate(cfg, pow, input, now), Calculate(cfg, pow, input', now);
      r'.sumM == r.sumM && r'.weightedPricePerSqM == r.weightedPricePerSqM && r'.totalMarketValue == r.totalMarketValue
  {
    SumsOrderless(cfg, pow, input, input');
  }

  lemma AdjustedAt(cfg: FormulaConfig, pow: Power, input: CalculationInput, i: nat)
    requires input.subject.area > 0.0 && i < |input.analogs|
    ensures Adjusted(cfg, pow, input)[i] ==
      Report(i + 1, input.analogs[i], ChainOf(cfg, pow, input.subject, input.analogs[i]))
  {
  }

  /// And it reorders the reports: analog i, found at place j, is reported as before up to its index.
  lemma ReportsFollowAnalogs(cfg: FormulaConfig, pow: Power, input: CalculationInput, input': CalculationInput,
      now: int, i: nat, j: nat)
    requires input.subject.area > 0.0 && |input.analogs| >= 2 && Reordered(input, input')
    requires i < |input.analogs| && j < |input'.analogs| && input.analogs[i] == input'.analogs[j]
    ensures |input'.analogs| == |input.analogs|
    ensures Calculate(cfg, pow, input', now).analogs[j] == Calculate(cfg, pow, input, now).analogs[i].(index := j + 1)
  {
    SumsOrderless(cfg, pow, input, input');
    var rs, rs' := Adjusted(cfg, pow, input), Adjusted(cfg, pow, input');
    AdjustedAt(cfg, pow, input, i);
    AdjustedAt(cfg, pow, input', j);
    assert rs'[j] == rs[i].(index := j + 1);
    assert Weights(Totals(rs'))[j] == Weights(Totals(rs))[i];
  }

  // ---------- Units of money ----------

  function Repriced(input: CalculationInput, c: real): CalculationInput {
    input.(analogs := seq(|input.analogs|,
      i requires 0 <= i < |input.analogs| => input.analogs[i].(price := Scaled(input.analogs[i].price, c))))
  }

  function Recosted(cfg: FormulaConfig, c: real): FormulaConfig {
    cfg.(repairs := seq(|cfg.repairs|,
      i requires 0 <= i < |cfg.repairs| => cfg.repairs[i].(unitCost := cfg.repairs[i].unitCost * c)))
  }

  lemma {:induction false} CostScales(cfg: FormulaConfig, c: real, key: string, k: nat)
    requires k <= |cfg.repairs|
    ensures LastUnitCost(Recosted(cfg, c).repairs[..k], key) == LastUnitCost(cfg.repairs[..k], key) * c
  {
    if k > 0 {
      CostScales(cfg, c, key, k - 1);
      assert cfg.repairs[..k][..k - 1] == cfg.repairs[..k - 1];
      assert Recosted(cfg, c).repairs[..k][..k - 1] == Recosted(cfg, c).repairs[..k - 1];
    }
  }

  lemma CostInForceScales(cfg: FormulaConfig, c: real, key: string)
    ensures LastUnitCost(Recosted(cfg, c).repairs, key) == Scaled(LastUnitCost(cfg.repairs, key), c)
  {
    CostScales(cfg, c, key, |cfg.repairs|);
    assert cfg.repairs[..|cfg.repairs|] == cfg.repairs;
    assert Recosted(cfg, c).repairs[..|cfg.repairs|] == Recosted(cfg, c).repairs;
  }

  lemma DeltaArithmetic(u: real, v: real, x: real, y: real, c: real, area: real)
    requires area > 0.0
    ensures (u * c * x - v * c * y) / area == (u * x - v * y) / area * c
  {
    assert u * c * x - v * c * y == (u * x - v * y) * c;
  }

  lemma DeltaOfScaled(u: real, v: real, x: real, y: real, c: real, area: real)
    requires area > 0.0
    ensures Ratio(Scaled(Scaled(u, c), x) - Scaled(Scaled(v, c), y), area) ==
      Scaled(Ratio(Scaled(u, x) - Scaled(v, y), area), c)
  {
    DeltaArithmetic(u, v, x, y, c, area);
  }

  lemma DeltaScales(cfg: FormulaConfig, c: real, s: Subject, a: Analog, p: real)
    requires s.area > 0.0
    ensures RepairDelta(Recosted(cfg, c), s, a.(price := p)) == Scaled(RepairDelta(cfg, s, a), c)
  {
    CostInForceScales(cfg, c, s.repairClass);
    CostInForceScales(cfg, c, a.repairClass);
    DeltaOfScaled(LastUnitCost(cfg.repairs, s.repairClass), LastUnitCost(cfg.repairs, a.repairClass),
                  ConditionOf(cfg, s.condition), ConditionOf(cfg, a.condition), c, s.area);
  }

  lemma FactorScales(price: real, delta: real, c: real)
    requires c > 0.0
    ensures RepairFactor(Scaled(price, c), Scaled(delta, c)) == RepairFactor(price, delta)
  {
    SignOfProduct(price, c);
    if price > 0.0 {
      var q := delta / price;
      assert q * price == delta;
      assert q * Scaled(price, c) == Scaled(delta, c);
    }
  }

  lemma Commute(x: real, k: real, c: real)
    ensures Scaled(Scaled(x, c), k) == Scaled(Scaled(x, k), c)
  {
  }

  lemma RepairedScales(mode: string, price: real, delta: real, c: real)
    requires c > 0.0
    ensures Repaired(mode, Scaled(price, c), Scaled(delta, c)) == Scaled(Repaired(mode, price, delta), c)
  {
    FactorScales(price, delta, c);
    Commute(price, RepairFactor(price, delta), c);
    assert Scaled(price, c) * RepairFactor(price, delta) == Scaled(Scaled(price, c), RepairFactor(price, delta));
    assert Scaled(price + delta, c) == Scaled(price, c) + Scaled(delta, c);
  }

  function ScaledChain(d: Chain, c: real): Chain {
    Chain(Scaled(d.x1, c), d.k1, Scaled(d.x2, c), d.k2, Scaled(d.x3, c), Scaled(d.delta, c), d.k3, Scaled(d.x4, c),
      d.k4, Scaled(d.x5, c))
  }

  lemma ChainScales(cfg: FormulaConfig, pow: Power, s: Subject, a: Analog, c: real)
    requires s.area > 0.0 && c > 0.0
    ensures ChainOf(Recosted(cfg, c), pow, s, a.(price := Scaled(a.price, c))) ==
      ScaledChain(ChainOf(cfg, pow, s, a), c)
  {
    var d := ChainOf(cfg, pow, s, a);
    assert Bargained(a.(price := Scaled(a.price, c))) == Scaled(Bargained(a), c);
    Commute(d.x1, d.k1, c);
    Commute(d.x2, d.k2, c);
    DeltaScales(cfg, c, s, a, Scaled(a.price, c));
    FactorScales(d.x3, d.delta, c);
    RepairedScales(cfg.repairMode, d.x3, d.delta, c);
    Commute(d.x4, d.k4, c);
  }

  lemma {:induction false} SumScales(xs: seq<real>, ys: seq<real>, c: real, k: nat)
    requires k <= |xs| == |ys| && forall i :: 0 <= i < |xs| ==> ys[i] == Scaled(xs[i], c)
    ensures Sum(ys[..k]) == Scaled(Sum(xs[..k]), c)
  {
    if k > 0 {
      SumScales(xs, ys, c, k - 1);
      SumSnoc(xs, k - 1);
      SumSnoc(ys, k - 1);
      assert Scaled(Sum(xs[..k - 1]) + xs[k - 1], c) == Scaled(Sum(xs[..k - 1]), c) + Scaled(xs[k - 1], c);
    }
  }

  lemma ScaledReport(index: int, a: Analog, a': Analog, d: Chain, c: real)
    requires a'.bargaining == a.bargaining
    ensures Report(index, a', ScaledChain(d, c)).totalAbsAdjustment == Report(index, a, d).totalAbsAdjustment
    ensures Report(index, a', ScaledChain(d, c)).priceAfterFloor == Scaled(Report(index, a, d).priceAfterFloor, c)
  {
    assert RawTotal(a', ScaledChain(d, c)) == RawTotal(a, d);
  }

  lemma AdjustedScales(cfg: FormulaConfig, pow: Power, input: CalculationInput, c: real, i: nat)
    requires input.subject.area > 0.0 && c > 0.0 && i < |input.analogs|
    ensures Adjusted(Recosted(cfg, c), pow, Repriced(input, c))[i] ==
      Report(i + 1, Repriced(input, c).analogs[i], ScaledChain(ChainOf(cfg, pow, input.subject, input.analogs[i]), c))
  {
    ChainScales(cfg, pow, input.subject, input.analogs[i], c);
    AdjustedAt(Recosted(cfg, c), pow, Repriced(input, c), i);
  }

  lemma ReportScales(cfg: FormulaConfig, pow: Power, input: CalculationInput, c: real, i: nat)
    requires input.subject.area > 0.0 && c > 0.0 && i < |input.analogs|
    ensures var r, r' := Adjusted(cfg, pow, input)[i], Adjusted(Recosted(cfg, c), pow, Repriced(input, c))[i];
      r'.totalAbsAdjustment == r.totalAbsAdjustment && r'.priceAfterFloor == Scaled(r.priceAfterFloor, c)
  {
    AdjustedAt(cfg, pow, input, i);
    AdjustedScales(cfg, pow, input, c, i);
    ScaledReport(i + 1, input.analogs[i], Repriced(input, c).analogs[i],
      ChainOf(cfg, pow, input.subject, input.analogs[i]), c);
  }

  lemma PriceScales(rs: seq<AnalogResult>, rs': seq<AnalogResult>, c: real)
    requires |rs| == |rs'| >= 2 && Totals(rs) == Totals(rs')
    requires forall i :: 0 <= i < |rs| ==> rs'[i].priceAfterFloor == Scaled(rs[i].priceAfterFloor, c)
    ensures RawPrice(rs') == Scaled(RawPrice(rs), c)
  {
    var ps, ps' := Products(Prices(rs), Weights(Totals(rs))), Products(Prices(rs'), Weights(Totals(rs')));
    forall i | 0 <= i < |ps| ensures ps'[i] == Scaled(ps[i], c) {
      Commute(rs[i].priceAfterFloor, Weights(Totals(rs))[i], c);
    }
    SumScales(ps, ps', c, |ps|);
    assert ps[..|ps|] == ps && ps'[..|ps|] == ps';
  }

  /// Prices and repair costs in another currency: every adjustment and weight stays, the weighted
  /// price before rounding is converted.
  lemma CurrencyChange(cfg: FormulaConfig, pow: Power, input: CalculationInput, c: real)
    requires input.subject.area > 0.0 && |input.analogs| >= 2 && c > 0.0
    ensures var rs, rs' := Adjusted(cfg, pow, input), Adjusted(Recosted(cfg, c), pow, Repriced(input, c));
      && Totals(rs') == Totals(rs)
      && WeightsOf(Weighted(rs')) == WeightsOf(Weighted(rs))
      && RawPrice(rs') == Scaled(RawPrice(rs), c)
  {
    var rs, rs' := Adjusted(cfg, pow, input), Adjusted(Recosted(cfg, c), pow, Repriced(input, c));
    forall i | 0 <= i < |rs|
      ensures rs'[i].totalAbsAdjustment == rs[i].totalAbsAdjustment
      ensures rs'[i].priceAfterFloor == Scaled(rs[i].priceAfterFloor, c)
    {
      ReportScales(cfg, pow, input, c, i);
    }
    assert Totals(rs') == Totals(rs);
    ReportedAreRounded(rs);
    ReportedAreRounded(rs');
    PriceScales(rs, rs', c);
  }

  // ---------- The scale constant ----------

  lemma RatioCancels(a: real, x: real, y: real)
    requires a > 0.0 && y > 0.0
    ensures (a * x) / (a * y) == x / y
  {
    var q := x / y;
    assert q * y == x;
    assert q * (a * y) == a * x;
  }

  lemma AreaIsPowerRatio(cfg: FormulaConfig, pow: Power, s: Subject, a: Analog)
    requires PositivePower(pow) && s.area > 0.0 && a.area > 0.0 && cfg.scale.a > 0.0
    ensures AreaFactor(cfg, pow, s, a) == pow(s.area, cfg.scale.b) / pow(a.area, cfg.scale.b)
  {
    SignOfProduct(cfg.scale.a, pow(a.area, cfg.scale.b));
    assert AreaScale(cfg, pow, a.area) == Scaled(cfg.scale.a, pow(a.area, cfg.scale.b));
    RatioCancels(cfg.scale.a, pow(s.area, cfg.scale.b), pow(a.area, cfg.scale.b));
  }

  /// Any positive scale constant gives the same result.
  lemma ScaleConstantIrrelevant(cfg: FormulaConfig, a: real, pow: Power, input: CalculationInput, now: int)
    requires PositivePower(pow) && ValidInput(input) && cfg.scale.a > 0.0 && a > 0.0
    ensures Calculate(cfg.(scale := cfg.scale.(a := a)), pow, input, now) == Calculate(cfg, pow, input, now)
  {
    var cfg' := cfg.(scale := cfg.scale.(a := a));
    forall i | 0 <= i < |input.analogs|
      ensures ChainOf(cfg, pow, input.subject, input.analogs[i]) == ChainOf(cfg', pow, input.subject, input.analogs[i])
    {
      AreaIsPowerRatio(cfg, pow, input.subject, input.analogs[i]);
      AreaIsPowerRatio(cfg', pow, input.subject, input.analogs[i]);
      SameFactorsSameChain(cfg, cfg', pow, input.subject, input.analogs[i]);
    }
    SameChainsSameResult(cfg, cfg', pow, input, now);
  }

  // ---------- Matching analogs ----------

  /// The analog is like the subject in everything but price and bargaining.
  predicate Matches(s: Subject, a: Analog) {
    && a.area == s.area && a.district == s.district && a.floor == s.floor
    && a.condition == s.condition && a.repairClass == s.repairClass
  }

  lemma OverItself(y: real)
    requires y != 0.0
    ensures Ratio(y, y) == 1.0
  {
  }

  lemma UnitArea(cfg: FormulaConfig, pow: Power, s: Subject, a: Analog)
    requires a.area == s.area
    ensures AreaFactor(cfg, pow, s, a) == 1.0
  {
    var y := AreaScale(cfg, pow, a.area);
    assert AreaScale(cfg, pow, s.area) == y;
    if y > 0.0 {
      OverItself(y);
    }
  }

  lemma UnitRepair(cfg: FormulaConfig, s: Subject, a: Analog)
    requires s.area > 0.0 && a.condition == s.condition && a.repairClass == s.repairClass
    ensures RepairDelta(cfg, s, a) == 0.0
  {
    assert 0.0 / s.area == 0.0;
  }

  lemma Unchanged(x: real)
    ensures Scaled(x, 1.0) == x
    ensures RepairFactor(x, 0.0) == 1.0
    ensures forall mode :: Repaired(mode, x, 0.0) == x
  {
  }

  /// A matching analog is only adjusted for bargaining, unless the floor matrix says otherwise on its diagonal.
  lemma MatchingAnalog(cfg: FormulaConfig, pow: Power, s: Subject, a: Analog)
    requires s.area > 0.0 && Matches(s, a) && FloorFactor(cfg, s, a) == 1.0
    ensures ChainOf(cfg, pow, s, a).x5 == Bargained(a)
    ensures RawTotal(a, ChainOf(cfg, pow, s, a)) == Abs(a.bargaining)
  {
    LocationIsRatio(cfg, s, a);
    ShiftedRatio(DistrictPriceOf(cfg, s.district), DistrictPriceOf(cfg, a.district));
    UnitArea(cfg, pow, s, a);
    UnitRepair(cfg, s, a);
    Unchanged(Bargained(a));
  }

  /// The default floor matrix has ones on its diagonal, and unknown floors are not adjusted.
  lemma DefaultFloors(s: Subject, a: Analog)
    requires a.floor == s.floor
    ensures FloorFactor(DefaultConfig(), s, a) == 1.0
  {
  }

  /// With the default configuration, analogs that all match the subject and offer one bargained price p
  /// give exactly that price, rounded.
  lemma MatchingAnalogsAgree(pow: Power, input: CalculationInput, p: real, now: int)
    requires input.subject.area > 0.0 && |input.analogs| >= 2
    requires forall i :: 0 <= i < |input.analogs| ==>
      Matches(input.subject, input.analogs[i]) && Bargained(input.analogs[i]) == p
    ensures Calculate(DefaultConfig(), pow, input, now).weightedPricePerSqM == RoundTo(p, 2)
  {
    var rs := Adjusted(DefaultConfig(), pow, input);
    forall i | 0 <= i < |rs| ensures Prices(rs)[i] == p {
      DefaultFloors(input.subject, input.analogs[i]);
      MatchingAnalog(DefaultConfig(), pow, input.subject, input.analogs[i]);
    }
    TotalsNonNegative(DefaultConfig(), pow, input);
    MixBetween(Prices(rs), Totals(rs), p, p);
  }
}
