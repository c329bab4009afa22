/// The apartment valuation (internal/service/apartment_calc.go): a five-step adjustment of each analog,
/// then a weighted reconciliation. Amounts are exact reals; math.Pow is a parameter of which only
/// positivity on positive bases is ever assumed.

module Valuation {
  import opened Apartment
  import opened Rounding

  type Power = (real, real) -> real

  ghost predicate PositivePower(pow: Power) {
    forall x, y :: x > 0.0 ==> pow(x, y) > 0.0
  }

  // ---------- Lookups, specified by a scan of the configured lists ----------

  /// The price of the last entry with this name, 0 without one.
  function LastPrice(list: seq<DistrictPrice>, name: string): real {
    if list == [] then 0.0
    else if list[|list| - 1].name == name then list[|list| - 1].price
    else LastPrice(list[..|list| - 1], name)
  }

  /// The unit cost of the last class with this id or name, 0 without one.
  function LastUnitCost(list: seq<RepairClass>, key: string): real {
    if list == [] then 0.0
    else if list[|list| - 1].id == key || list[|list| - 1].name == key then list[|list| - 1].unitCost
    else LastUnitCost(list[..|list| - 1], key)
  }

  /// Reading a Go map: the zero value for a missing key.
  function Lookup(m: map<string, real>, key: string): real {
    if key in m then m[key] else 0.0
  }

  /// A district without a positive price counts with the fallback price.
  function DistrictPriceOf(cfg: FormulaConfig, district: string): (p: real)
    ensures p > 0.0
  {
    var p := LastPrice(cfg.districts, district);
    if p <= 0.0 then 100000.0 else p
  }

  function ConditionOf(cfg: FormulaConfig, condition: string): real {
    if condition in cfg.conditions then cfg.conditions[condition] else 0.67
  }

  // ---------- The five steps ----------

  /// A price times a factor.
  function Scaled(price: real, k: real): real {
    price * k
  }

  function Ratio(x: real, y: real): real
    requires y != 0.0
  {
    x / y
  }

  function Bargained(a: Analog): real {
    a.price * (1.0 - a.bargaining / 100.0)
  }

  function LocationFactor(cfg: FormulaConfig, s: Subject, a: Analog): real {
    var ps, pa := DistrictPriceOf(cfg, s.district), DistrictPriceOf(cfg, a.district);
    if cfg.locationMode == "doc_formula" then (if pa > 0.0 then 1.0 + Ratio(ps - pa, pa) else 1.0)
    else if cfg.locationMode == "ratio" then Ratio(ps, pa)
    else if a.district == s.district then 1.0
    else Ratio(ps, pa)
  }

  function AreaScale(cfg: FormulaConfig, pow: Power, area: real): real {
    Scaled(cfg.scale.a, pow(area, cfg.scale.b))
  }

  function AreaFactor(cfg: FormulaConfig, pow: Power, s: Subject, a: Analog): real {
    var ys, ya := AreaScale(cfg, pow, s.area), AreaScale(cfg, pow, a.area);
    if ya > 0.0 then Ratio(ys, ya) else 1.0
  }

  function RepairDelta(cfg: FormulaConfig, s: Subject, a: Analog): real
    requires s.area > 0.0
  {
    Ratio(Scaled(LastUnitCost(cfg.repairs, s.repairClass), ConditionOf(cfg, s.condition))
          - Scaled(LastUnitCost(cfg.repairs, a.repairClass), ConditionOf(cfg, a.condition)), s.area)
  }

  function RepairFactor(price: real, delta: real): real {
    if price > 0.0 then 1.0 + Ratio(delta, price) else 1.0
  }

  function Repaired(mode: string, price: real, delta: real): real {
    if mode == "multiplicative_direct" then Scaled(price, RepairFactor(price, delta)) else price + delta
  }

  function FloorFactor(cfg: FormulaConfig, s: Subject, a: Analog): real {
    if s.floor in cfg.floors && a.floor in cfg.floors[s.floor] then cfg.floors[s.floor][a.floor] else 1.0
  }

  function PercentOff(k: real): real {
    Abs(k - 1.0) * 100.0
  }

  /// The unrounded quantities of the five steps: factors, prices after each step, and the repair delta.
  datatype Chain = Chain(x1: real, k1: real, x2: real, k2: real, x3: real, delta: real, k3: real, x4: real, k4: real,
      x5: real)

  function ChainOf(cfg: FormulaConfig, pow: Power, s: Subject, a: Analog): Chain
    requires s.area > 0.0
  {
    var x1 := Bargained(a);
    var k1 := LocationFactor(cfg, s, a);
    var x2 := Scaled(x1, k1);
    var k2 := AreaFactor(cfg, pow, s, a);
    var x3 := Scaled(x2, k2);
    var delta := RepairDelta(cfg, s, a);
    var k3 := RepairFactor(x3, delta);
    var x4 := Repaired(cfg.repairMode, x3, delta);
    var k4 := FloorFactor(cfg, s, a);
    Chain(x1, k1, x2, k2, x3, delta, k3, x4, k4, Scaled(x4, k4))
  }

  /// The sum of absolute adjustments of one analog, before rounding.
  function RawTotal(a: Analog, c: Chain): real {
    Abs(a.bargaining) + PercentOff(c.k1) + PercentOff(c.k2) + PercentOff(c.k3) + PercentOff(c.k4)
  }

  /// What is reported of an analog, before its weight is known.
  function Report(index: int, a: Analog, c: Chain): AnalogResult {
    AnalogResult(
      index, a, c.x1, RoundTo(c.k1, 4), c.x2, RoundTo(c.k2, 4), c.x3, RoundTo(c.delta, 2), RoundTo(c.k3, 4), c.x4,
      RoundTo(c.k4, 4), c.x5, Abs(a.bargaining), PercentOff(c.k1), PercentOff(c.k2), PercentOff(c.k3), PercentOff(c.k4),
      RoundTo(RawTotal(a, c), 2), 0.0)
  }

  function Adjust(cfg: FormulaConfig, pow: Power, s: Subject, a: Analog, index: int): AnalogResult
    requires s.area > 0.0
  {
    Report(index, a, ChainOf(cfg, pow, s, a))
  }

  // ---------- Reconciliation ----------

  function Sum(xs: seq<real>): real {
    if xs == [] then 0.0 else Sum(xs[..|xs| - 1]) + xs[|xs| - 1]
  }

  function Adjusted(cfg: FormulaConfig, pow: Power, input: CalculationInput): (rs: seq<AnalogResult>)
    requires input.subject.area > 0.0
    ensures |rs| == |input.analogs|
  {
    seq(|input.analogs|,
      i requires 0 <= i < |input.analogs| => Adjust(cfg, pow, input.subject, input.analogs[i], i + 1))
  }

  function Totals(rs: seq<AnalogResult>): (ms: seq<real>)
    ensures |ms| == |rs|
  {
    seq(|rs|, i requires 0 <= i < |rs| => rs[i].totalAbsAdjustment)
  }

  function Prices(rs: seq<AnalogResult>): (ps: seq<real>)
    ensures |ps| == |rs|
  {
    seq(|rs|, i requires 0 <= i < |rs| => rs[i].priceAfterFloor)
  }

  /// The unrounded weight of one of n analogs: the less it was adjusted, the more it counts.
  function Weight(m: real, total: real, n: int): real
    requires n >= 2
  {
    if total > 0.0 then (1.0 - m / total) / (n - 1) as real else 1.0 / n as real
  }

  function Weights(ms: seq<real>): (ws: seq<real>)
    requires |ms| >= 2
    ensures |ws| == |ms|
  {
    seq(|ms|, i requires 0 <= i < |ms| => Weight(ms[i], Sum(ms), |ms|))
  }

  function Products(xs: seq<real>, ys: seq<real>): (ps: seq<real>)
    requires |xs| == |ys|
    ensures |ps| == |xs|
  {
    seq(|xs|, i requires 0 <= i < |xs| => Scaled(xs[i], ys[i]))
  }

  /// The weighted price per square metre before it is rounded.
  function RawPrice(rs: seq<AnalogResult>): real
    requires |rs| >= 2
  {
    Sum(Products(Prices(rs), Weights(Totals(rs))))
  }

  function Weighted(rs: seq<AnalogResult>): (ws: seq<AnalogResult>)
    requires |rs| >= 2
    ensures |ws| == |rs|
  {
    seq(|rs|, i requires 0 <= i < |rs| => rs[i].(weight := RoundTo(Weights(Totals(rs))[i], 4)))
  }

  function Calculate(cfg: FormulaConfig, pow: Power, input: CalculationInput, calculatedAt: int): CalculationResult
    requires input.subject.area > 0.0 && |input.analogs| >= 2
  {
    var rs := Adjusted(cfg, pow, input);
    var price := RoundTo(RawPrice(rs), 2);
    CalculationResult(
      input.subject, Weighted(rs), RoundTo(Sum(Totals(rs)), 2), price, RoundTo(Scaled(price, input.subject.area), 2),
      calculatedAt)
  }

  /// What CalculateApartment accepts.
  predicate ValidInput(input: CalculationInput) {
    && input.subject.area > 0.0
    && |input.analogs| == 4
    && forall i :: 0 <= i < 4 ==> input.analogs[i].price > 0.0 && input.analogs[i].area > 0.0
  }

  // ---------- The code ----------

  /// The district map, filled entry by entry.
  method IndexDistricts(list: seq<DistrictPrice>) returns (m: map<string, real>)
    ensures forall key :: Lookup(m, key) == LastPrice(list, key)
  {
    m := map[];
    for i := 0 to |list|
      invariant forall key :: Lookup(m, key) == LastPrice(list[..i], key)
    {
      assert list[..i + 1][..i] == list[..i];
      m := m[list[i].name := list[i].price];
    }
    assert list[..|list|] == list;
  }

  /// The repair map: every class under its id, then under its name.
  method IndexRepairs(list: seq<RepairClass>) returns (m: map<string, real>)
    ensures forall key :: Lookup(m, key) == LastUnitCost(list, key)
  {
    m := map[];
    for i := 0 to |list|
      invariant forall key :: Lookup(m, key) == LastUnitCost(list[..i], key)
    {
      assert list[..i + 1][..i] == list[..i];
      m := m[list[i].id := list[i].unitCost];
      m := m[list[i].name := list[i].unitCost];
    }
    assert list[..|list|] == list;
  }

  /// What the calculation looks up once for the subject, and the two maps.
  datatype Context = Context(
    districts: map<string, real>,
    repairs: map<string, real>,
    subjectPrice: real,
    subjectCondition: real,
    subjectRepair: real,
    subjectY: real)

  ghost predicate ContextOf(c: Context, cfg: FormulaConfig, pow: Power, s: Subject) {
    && (forall key :: Lookup(c.districts, key) == LastPrice(cfg.districts, key))
    && (forall key :: Lookup(c.repairs, key) == LastUnitCost(cfg.repairs, key))
    && c.subjectPrice == DistrictPriceOf(cfg, s.district)
    && c.subjectCondition == ConditionOf(cfg, s.condition)
    && c.subjectRepair == LastUnitCost(cfg.repairs, s.repairClass)
    && c.subjectY == AreaScale(cfg, pow, s.area)
  }

  method Prepare(cfg: FormulaConfig, pow: Power, s: Subject) returns (c: Context)
    ensures ContextOf(c, cfg, pow, s)
  {
    var districts := IndexDistricts(cfg.districts);
    var repairs := IndexRepairs(cfg.repairs);
    var subjectPrice := Lookup(districts, s.district);
    if subjectPrice <= 0.0 {
      subjectPrice := 100000.0;
    }
    var subjectCondition := if s.condition in cfg.conditions then cfg.conditions[s.condition] else 0.67;
    var subjectRepair := Lookup(repairs, s.repairClass);
    var subjectY := Scaled(cfg.scale.a, pow(s.area, cfg.scale.b));
    c := Context(districts, repairs, subjectPrice, subjectCondition, subjectRepair, subjectY);
  }

  /// Step 2 of the loop body.
  method LocationStep(cfg: FormulaConfig, s: Subject, a: Analog, c: Context) returns (k1: real)
    requires forall key :: Lookup(c.districts, key) == LastPrice(cfg.districts, key)
    requires c.subjectPrice == DistrictPriceOf(cfg, s.district)
    ensures k1 == LocationFactor(cfg, s, a)
  {
    var analogPrice := Lookup(c.districts, a.district);
    if analogPrice <= 0.0 {
      analogPrice := 100000.0;
    }
    assert analogPrice == DistrictPriceOf(cfg, a.district);
    if cfg.locationMode == "doc_formula" {
      if analogPrice > 0.0 {
        k1 := 1.0 + Ratio(c.subjectPrice - analogPrice, analogPrice);
      } else {
        k1 := 1.0;
      }
    } else if cfg.locationMode == "ratio" {
      k1 := Ratio(c.subjectPrice, analogPrice);
    } else if a.district == s.district {
      k1 := 1.0;
    } else {
      k1 := Ratio(c.subjectPrice, analogPrice);
    }
  }

  /// Step 3.
  method AreaStep(cfg: FormulaConfig, pow: Power, s: Subject, a: Analog, c: Context) returns (k2: real)
    requires c.subjectY == AreaScale(cfg, pow, s.area)
    ensures k2 == AreaFactor(cfg, pow, s, a)
  {
    var analogY := AreaScale(cfg, pow, a.area);
    k2 := 1.0;
    if analogY > 0.0 {
      k2 := Ratio(c.subjectY, analogY);
    }
  }

  /// The repair cost difference of step 4.
  method RepairStep(cfg: FormulaConfig, s: Subject, a: Analog, c: Context) returns (delta: real)
    requires s.area > 0.0
    requires forall key :: Lookup(c.repairs, key) == LastUnitCost(cfg.repairs, key)
    requires c.subjectCondition == ConditionOf(cfg, s.condition)
    requires c.subjectRepair == LastUnitCost(cfg.repairs, s.repairClass)
    ensures delta == RepairDelta(cfg, s, a)
  {
    var analogCondition := if a.condition in cfg.conditions then cfg.conditions[a.condition] else 0.67;
    var analogRepair := Lookup(c.repairs, a.repairClass);
    delta := Ratio(Scaled(c.subjectRepair, c.subjectCondition) - Scaled(analogRepair, analogCondition), s.area);
  }

  /// Step 5.
  method FloorStep(cfg: FormulaConfig, s: Subject, a: Analog) returns (k4: real)
    ensures k4 == FloorFactor(cfg, s, a)
  {
    k4 := 1.0;
    if s.floor in cfg.floors && a.floor in cfg.floors[s.floor] {
      k4 := cfg.floors[s.floor][a.floor];
    }
  }

  /// The body of the first loop: one analog through the five steps.
  method AdjustAnalog(cfg: FormulaConfig, pow: Power, s: Subject, a: Analog, index: int, c: Context)
      returns (res: AnalogResult)
    requires s.area > 0.0 && ContextOf(c, cfg, pow, s)
    ensures res == Adjust(cfg, pow, s, a, index)
  {
    var x1 := Bargained(a);
    var k1 := LocationStep(cfg, s, a, c);
    var x2 := Scaled(x1, k1);
    var k2 := AreaStep(cfg, pow, s, a, c);
    var x3 := Scaled(x2, k2);
    var delta := RepairStep(cfg, s, a, c);
    var k3 := RepairFactor(x3, delta);
    var x4 := Repaired(cfg.repairMode, x3, delta);
    var k4 := FloorStep(cfg, s, a);
    var x5 := Scaled(x4, k4);
    res := Report(index, a, Chain(x1, k1, x2, k2, x3, delta, k3, x4, k4, x5));
  }

  /// The first loop: every analog is adjusted into its slot, and the adjustments are added up.
  method AdjustAll(input: CalculationInput, cfg: FormulaConfig, pow: Power, c: Context, results: array<AnalogResult>)
    returns (sumM: real)
    requires input.subject.area > 0.0 && results.Length == |input.analogs| && ContextOf(c, cfg, pow, input.subject)
    modifies results
    ensures results[..] == Adjusted(cfg, pow, input)
    ensures sumM == Sum(Totals(Adjusted(cfg, pow, input)))
  {
    ghost var rs := Adjusted(cfg, pow, input);
    sumM := 0.0;
    for i := 0 to |input.analogs|
      invariant results[..i] == rs[..i]
      invariant sumM == Sum(Totals(rs)[..i])
    {
      var res := AdjustAnalog(cfg, pow, input.subject, input.analogs[i], i + 1, c);
      sumM := sumM + res.totalAbsAdjustment;
      results[i] := res;
      assert Totals(rs)[..i + 1][..i] == Totals(rs)[..i];
    }
    assert Totals(rs)[..|rs|] == Totals(rs);
  }

  /// The weight formula of the loop.
  method Share(m: real, sumM: real) returns (w: real)
    ensures w == Weight(m, sumM, 4)
  {
    if sumM > 0.0 {
      w := (1.0 - m / sumM) / 3.0;
    } else {
      w := 0.25;
    }
  }

  /// The second loop: every slot gets its weight, and the weighted price accumulates.
  method WeighAll(results: array<AnalogResult>, sumM: real) returns (price: real)
    requires results.Length == 4 && sumM == Sum(Totals(results[..]))
    modifies results
    ensures results[..] == Weighted(old(results[..]))
    ensures price == RawPrice(old(results[..]))
  {
    ghost var rs := results[..];
    ghost var ws := Weighted(rs);
    ghost var products := Products(Prices(rs), Weights(Totals(rs)));
    price := 0.0;
    for i := 0 to 4
      invariant forall j :: 0 <= j < i ==> results[j] == ws[j]
      invariant forall j :: i <= j < 4 ==> results[j] == rs[j]
      invariant price == Sum(products[..i])
    {
      var w := Share(results[i].totalAbsAdjustment, sumM);
      assert products[i] == Scaled(results[i].priceAfterFloor, w);
      price := price + Scaled(results[i].priceAfterFloor, w);
      results[i] := results[i].(weight := RoundTo(w, 4));
      assert products[..i + 1][..i] == products[..i];
    }
    assert products[..4] == products;
  }

  /// The value of a slot before it is filled.
  function Blank(input: CalculationInput): AnalogResult
    requires |input.analogs| > 0
  {
    AnalogResult(0, input.analogs[0], 0.0, 0.0, 0.0, 0.0, 0.0, 0.0, 0.0, 0.0, 0.0, 0.0, 0.0, 0.0, 0.0, 0.0, 0.0, 0.0,
      0.0)
  }

  /// calculateApartmentWithConfig.
  method CalculateWithConfig(input: CalculationInput, cfg: FormulaConfig, pow: Power, now: int)
      returns (r: CalculationResult)
    requires input.subject.area > 0.0 && |input.analogs| == 4
    ensures r == Calculate(cfg, pow, input, now)
  {
    var c := Prepare(cfg, pow, input.subject);
    var results := new AnalogResult[4](_ => Blank(input));
    var sumM := AdjustAll(input, cfg, pow, c, results);
    var price := WeighAll(results, sumM);
    price := RoundTo(price, 2);
    r := CalculationResult(
      input.subject, results[..], RoundTo(sumM, 2), price, RoundTo(Scaled(price, input.subject.area), 2), now);
  }

  /// The checks on the input.
  method Validate(input: CalculationInput) returns (ok: bool)
    ensures ok <==> ValidInput(input)
    ensures ok <==>
      && input.subject.area > 0.0 && |input.analogs| == 4
      && forall i :: 0 <= i < |input.analogs| ==> input.analogs[i].price > 0.0 && input.analogs[i].area > 0.0
  {
    if input.subject.area <= 0.0 || |input.analogs| != 4 {
      return false;
    }
    for i := 0 to 4
      invariant forall j :: 0 <= j < i ==> input.analogs[j].price > 0.0 && input.analogs[j].area > 0.0
    {
      if input.analogs[i].price <= 0.0 || input.analogs[i].area <= 0.0 {
        return false;
      }
    }
    ok := true;
  }
}
