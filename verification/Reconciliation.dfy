/// Laws of the valuation: lookups, weights, the reported price and total, and their rounding.

module Reconciliation {
  import opened Apartment
  import opened Rounding
  import opened Valuation

  // ---------- Lookups ----------

  ghost predicate LastNamed(list: seq<DistrictPrice>, name: string, i: int) {
    0 <= i < |list| && list[i].name == name && forall j :: i < j < |list| ==> list[j].name != name
  }

  ghost predicate LastKeyed(list: seq<RepairClass>, key: string, i: int) {
    && 0 <= i < |list|
    && (list[i].id == key || list[i].name == key)
    && forall j :: i < j < |list| ==> list[j].id != key && list[j].name != key
  }

  /// The price in force for a district is that of the last entry with its name, 0 when there is none.
  lemma {:induction false} DistrictInForce(list: seq<DistrictPrice>, name: string)
    ensures forall i :: LastNamed(list, name, i) ==> LastPrice(list, name) == list[i].price
    ensures (forall i :: 0 <= i < |list| ==> list[i].name != name) ==> LastPrice(list, name) == 0.0
  {
    if list != [] && list[|list| - 1].name != name {
      DistrictInForce(list[..|list| - 1], name);
      forall i | LastNamed(list, name, i) ensures LastPrice(list, name) == list[i].price {
        assert LastNamed(list[..|list| - 1], name, i);
      }
    }
  }

  /// The unit cost in force for a key is that of the last class with that id or name, also when the id of
  /// one class is the name of another.
  lemma {:induction false} RepairInForce(list: seq<RepairClass>, key: string)
    ensures forall i :: LastKeyed(list, key, i) ==> LastUnitCost(list, key) == list[i].unitCost
    ensures (forall i :: 0 <= i < |list| ==> list[i].id != key && list[i].name != key) ==>
      LastUnitCost(list, key) == 0.0
  {
    if list != [] && list[|list| - 1].id != key && list[|list| - 1].name != key {
      RepairInForce(list[..|list| - 1], key);
      forall i | LastKeyed(list, key, i) ensures LastUnitCost(list, key) == list[i].unitCost {
        assert LastKeyed(list[..|list| - 1], key, i);
      }
    }
  }

  // ---------- Sums ----------

  lemma SumSnoc(xs: seq<real>, k: nat)
    requires k < |xs|
    ensures Sum(xs[..k + 1]) == Sum(xs[..k]) + xs[k]
  {
    assert xs[..k + 1][..k] == xs[..k];
  }

  lemma {:induction false} SumNonNegative(xs: seq<real>)
    requires forall i :: 0 <= i < |xs| ==> xs[i] >= 0.0
    ensures Sum(xs) >= 0.0
    ensures forall i :: 0 <= i < |xs| ==> xs[i] <= Sum(xs)
  {
    if xs != [] {
      SumNonNegative(xs[..|xs| - 1]);
      forall i | 0 <= i < |xs| ensures xs[i] <= Sum(xs) {
        if i < |xs| - 1 {
          assert xs[i] == xs[..|xs| - 1][i];
        }
      }
    }
  }

  // ---------- Weights ----------

  lemma DivideSum(a: real, b: real, c: real)
    requires c != 0.0
    ensures a / c + b / c == (a + b) / c
  {
  }

  lemma WeightStep(k: real, s: real, m: real, total: real, d: real)
    requires total != 0.0 && d != 0.0
    ensures (k - s / total) / d + (1.0 - m / total) / d == (k + 1.0 - (s + m) / total) / d
  {
    DivideSum(s, m, total);
    DivideSum(k - s / total, 1.0 - m / total, d);
  }

  lemma {:induction false} WeightsPrefix(ms: seq<real>, k: nat)
    requires |ms| >= 2 && k <= |ms| && Sum(ms) > 0.0
    ensures Sum(Weights(ms)[..k]) == (k as real - Sum(ms[..k]) / Sum(ms)) / (|ms| - 1) as real
  {
    if k > 0 {
      WeightsPrefix(ms, k - 1);
      SumSnoc(Weights(ms), k - 1);
      SumSnoc(ms, k - 1);
      WeightStep((k - 1) as real, Sum(ms[..k - 1]), ms[k - 1], Sum(ms), (|ms| - 1) as real);
    }
  }

  lemma {:induction false} EqualWeightsPrefix(ms: seq<real>, k: nat)
    requires |ms| >= 2 && k <= |ms| && Sum(ms) <= 0.0
    ensures Sum(Weights(ms)[..k]) == k as real / |ms| as real
  {
    if k > 0 {
      EqualWeightsPrefix(ms, k - 1);
      SumSnoc(Weights(ms), k - 1);
      DivideSum((k - 1) as real, 1.0, |ms| as real);
    }
  }

  /// The unrounded weights of any number of analogs sum to exactly 1, in both branches.
  lemma WeightsSumToOne(ms: seq<real>)
    requires |ms| >= 2
    ensures Sum(Weights(ms)) == 1.0
  {
    assert Weights(ms)[..|ms|] == Weights(ms) && ms[..|ms|] == ms;
    if Sum(ms) > 0.0 {
      WeightsPrefix(ms, |ms|);
      assert Sum(ms) / Sum(ms) == 1.0;
    } else {
      EqualWeightsPrefix(ms, |ms|);
    }
  }

  lemma Fraction(m: real, total: real)
    requires 0.0 <= m <= total && total > 0.0
    ensures 0.0 <= m / total <= 1.0
  {
    Over(0.0, m, total);
    Over(m, total, total);
  }

  lemma ShareInRange(x: real, d: real)
    requires 0.0 <= x <= 1.0 && d >= 1.0
    ensures 0.0 <= x / d <= 1.0 / d
  {
    Over(0.0, x, d);
    Over(x, 1.0, d);
  }

  lemma OverSmaller(d: real, e: real)
    requires 0.0 < d <= e
    ensures 0.0 <= 1.0 / e <= 1.0 / d
  {
    assert 1.0 / e * e == 1.0 && 1.0 / d * d == 1.0;
    Over(0.0, 1.0, e);
    Times(d, e, 1.0 / e);
    assert d * (1.0 / e) <= 1.0;
    Over(d * (1.0 / e), 1.0, d);
    assert d * (1.0 / e) / d == 1.0 / e;
  }

  /// They lie between 0 and 1 / (n - 1): for four analogs, between 0 and a third.
  lemma WeightsInRange(ms: seq<real>, i: nat)
    requires |ms| >= 2 && i < |ms| && forall j :: 0 <= j < |ms| ==> ms[j] >= 0.0
    ensures 0.0 <= Weights(ms)[i] <= 1.0 / (|ms| - 1) as real
  {
    SumNonNegative(ms);
    if Sum(ms) > 0.0 {
      Fraction(ms[i], Sum(ms));
      ShareInRange(1.0 - ms[i] / Sum(ms), (|ms| - 1) as real);
    } else {
      OverSmaller((|ms| - 1) as real, |ms| as real);
    }
  }

  /// An analog that needed less adjustment never weighs less.
  lemma LessAdjustedWeighsMore(ms: seq<real>, i: nat, j: nat)
    requires |ms| >= 2 && i < |ms| && j < |ms| && ms[i] <= ms[j]
    ensures Weights(ms)[i] >= Weights(ms)[j]
  {
    if Sum(ms) > 0.0 {
      Over(ms[i], ms[j], Sum(ms));
      Over(1.0 - ms[j] / Sum(ms), 1.0 - ms[i] / Sum(ms), (|ms| - 1) as real);
    }
  }

  // ---------- The reported price ----------

  lemma PercentsNonNegative(a: Analog, c: Chain)
    ensures RawTotal(a, c) >= 0.0
  {
  }

  lemma TotalsNonNegative(cfg: FormulaConfig, pow: Power, input: CalculationInput)
    requires input.subject.area > 0.0
    ensures forall i :: 0 <= i < |input.analogs| ==> Totals(Adjusted(cfg, pow, input))[i] >= 0.0
  {
    forall i | 0 <= i < |input.analogs| ensures Totals(Adjusted(cfg, pow, input))[i] >= 0.0 {
      var c := ChainOf(cfg, pow, input.subject, input.analogs[i]);
      PercentsNonNegative(input.analogs[i], c);
      RoundToNonNegative(RawTotal(input.analogs[i], c), 2);
    }
  }

  lemma WeighedTerm(lo: real, p: real, hi: real, w: real)
    requires lo <= p <= hi && w >= 0.0
    ensures Scaled(lo, w) <= Scaled(p, w) <= Scaled(hi, w)
  {
    assert (p - lo) * w >= 0.0;
    assert (hi - p) * w >= 0.0;
  }

  lemma ScaledSum(x: real, a: real, b: real)
    ensures Scaled(x, a + b) == Scaled(x, a) + Scaled(x, b)
  {
  }

  lemma {:induction false} MixPrefix(ps: seq<real>, ws: seq<real>, lo: real, hi: real, k: nat)
    requires |ps| == |ws| && k <= |ps|
    requires forall i :: 0 <= i < |ps| ==> lo <= ps[i] <= hi && ws[i] >= 0.0
    ensures Scaled(lo, Sum(ws[..k])) <= Sum(Products(ps, ws)[..k]) <= Scaled(hi, Sum(ws[..k]))
  {
    if k > 0 {
      MixPrefix(ps, ws, lo, hi, k - 1);
      SumSnoc(ws, k - 1);
      SumSnoc(Products(ps, ws), k - 1);
      WeighedTerm(lo, ps[k - 1], hi, ws[k - 1]);
      ScaledSum(lo, Sum(ws[..k - 1]), ws[k - 1]);
      ScaledSum(hi, Sum(ws[..k - 1]), ws[k - 1]);
    }
  }

  /// A weighted mean lies between the bounds of what is weighted.
  lemma MixBetween(ps: seq<real>, ms: seq<real>, lo: real, hi: real)
    requires |ps| == |ms| >= 2
    requires forall i :: 0 <= i < |ps| ==> lo <= ps[i] <= hi && ms[i] >= 0.0
    ensures lo <= Sum(Products(ps, Weights(ms))) <= hi
  {
    var ws := Weights(ms);
    forall i | 0 <= i < |ms| ensures ws[i] >= 0.0 {
      WeightsInRange(ms, i);
    }
    MixPrefix(ps, ws, lo, hi, |ps|);
    WeightsSumToOne(ms);
    assert ws[..|ps|] == ws && Products(ps, ws)[..|ps|] == Products(ps, ws);
  }

  ghost predicate Smallest(ps: seq<real>, i: int) {
    0 <= i < |ps| && forall j :: 0 <= j < |ps| ==> ps[i] <= ps[j]
  }

  ghost predicate Largest(ps: seq<real>, i: int) {
    0 <= i < |ps| && forall j :: 0 <= j < |ps| ==> ps[j] <= ps[i]
  }

  /// The reported price per square metre lies between the rounded smallest and the rounded largest
  /// of the adjusted prices.
  lemma ReportedBetween(cfg: FormulaConfig, pow: Power, input: CalculationInput, now: int, i: int, j: int)
    requires input.subject.area > 0.0 && |input.analogs| >= 2
    requires var ps := Prices(Adjusted(cfg, pow, input)); Smallest(ps, i) && Largest(ps, j)
    ensures var ps := Prices(Adjusted(cfg, pow, input));
      RoundTo(ps[i], 2) <= Calculate(cfg, pow, input, now).weightedPricePerSqM <= RoundTo(ps[j], 2)
  {
    var rs := Adjusted(cfg, pow, input);
    var ps := Prices(rs);
    TotalsNonNegative(cfg, pow, input);
    MixBetween(ps, Totals(rs), ps[i], ps[j]);
    RoundToMonotone(ps[i], RawPrice(rs), 2);
    RoundToMonotone(RawPrice(rs), ps[j], 2);
  }

  // ---------- Rounding of the reported figures ----------

  lemma {:induction false} SumOfDecimals(xs: seq<real>, places: nat)
    requires forall i :: 0 <= i < |xs| ==> HasPlaces(xs[i], places)
    ensures HasPlaces(Sum(xs), places)
  {
    if xs == [] {
      assert 0.0 == Decimal(0, places);
    } else {
      SumOfDecimals(xs[..|xs| - 1], places);
      SumHasPlaces(Sum(xs[..|xs| - 1]), xs[|xs| - 1], places);
    }
  }

  /// The reported sum of adjustments is exactly the sum of the reported adjustments.
  lemma ReportedSumExact(cfg: FormulaConfig, pow: Power, input: CalculationInput, now: int)
    requires input.subject.area > 0.0 && |input.analogs| >= 2
    ensures var r := Calculate(cfg, pow, input, now); r.sumM == Sum(Totals(r.analogs))
  {
    var rs := Adjusted(cfg, pow, input);
    forall i | 0 <= i < |rs| ensures HasPlaces(Totals(rs)[i], 2) {
      RoundToHasPlaces(RawTotal(input.analogs[i], ChainOf(cfg, pow, input.subject, input.analogs[i])), 2);
    }
    SumOfDecimals(Totals(rs), 2);
    RoundToExact(Sum(Totals(rs)), 2);
    assert Totals(Weighted(rs)) == Totals(rs);
  }

  function Rounded(xs: seq<real>, places: nat): (ys: seq<real>)
    ensures |ys| == |xs|
  {
    seq(|xs|, i requires 0 <= i < |xs| => RoundTo(xs[i], places))
  }

  lemma AddError(a: real, b: real, x: real, y: real, e: real, f: real)
    requires Abs(a - b) <= e && Abs(x - y) <= f
    ensures Abs((a + x) - (b + y)) <= e + f
  {
  }

  lemma ErrorStep(a: real, b: real, x: real, y: real, n: real, half: real)
    requires Abs(a - b) <= Scaled(half, n) && Abs(x - y) <= half
    ensures Abs((a + x) - (b + y)) <= Scaled(half, n + 1.0)
  {
    AddError(a, b, x, y, Scaled(half, n), half);
  }

  lemma {:induction false} SumError(xs: seq<real>, ys: seq<real>, k: nat, half: real)
    requires k <= |xs| == |ys|
    requires forall i :: 0 <= i < |xs| ==> Abs(ys[i] - xs[i]) <= half
    ensures Abs(Sum(ys[..k]) - Sum(xs[..k])) <= Scaled(half, k as real)
  {
    if k > 0 {
      SumError(xs, ys, k - 1, half);
      SumSnoc(ys, k - 1);
      SumSnoc(xs, k - 1);
      ErrorStep(Sum(ys[..k - 1]), Sum(xs[..k - 1]), ys[k - 1], xs[k - 1], (k - 1) as real, half);
    }
  }

  lemma Shifts()
    ensures Shift(2) == 100.0 && Shift(4) == 10000.0
  {
    assert Pow10(1) == 10.0 * Pow10(0);
    assert Pow10(2) == 10.0 * Pow10(1);
    assert Pow10(3) == 10.0 * Pow10(2);
    assert Pow10(4) == 10.0 * Pow10(3);
  }

  /// The reported weights.
  function WeightsOf(rs: seq<AnalogResult>): (ws: seq<real>)
    ensures |ws| == |rs|
  {
    seq(|rs|, i requires 0 <= i < |rs| => rs[i].weight)
  }

  lemma FourRounded(ws: seq<real>)
    requires |ws| == 4 && Sum(ws) == 1.0
    ensures Abs(Sum(Rounded(ws, 4)) - 1.0) <= 0.0002
  {
    Shifts();
    forall i | 0 <= i < 4 ensures Abs(Rounded(ws, 4)[i] - ws[i]) <= 0.00005 {
      RoundToNearest(ws[i], 4);
    }
    SumError(ws, Rounded(ws, 4), 4, 0.00005);
    assert Rounded(ws, 4)[..4] == Rounded(ws, 4) && ws[..4] == ws;
  }

  lemma ReportedAreRounded(rs: seq<AnalogResult>)
    requires |rs| >= 2
    ensures WeightsOf(Weighted(rs)) == Rounded(Weights(Totals(rs)), 4)
  {
  }

  /// The four reported weights sum to 1 within 0.0002.
  lemma ReportedWeights(cfg: FormulaConfig, pow: Power, input: CalculationInput, now: int)
    requires input.subject.area > 0.0 && |input.analogs| == 4
    ensures Abs(Sum(WeightsOf(Calculate(cfg, pow, input, now).analogs)) - 1.0) <= 0.0002
  {
    var rs := Adjusted(cfg, pow, input);
    WeightsSumToOne(Totals(rs));
    FourRounded(Weights(Totals(rs)));
    ReportedAreRounded(rs);
  }

  lemma ScaledError(a: real, b: real, e: real, area: real)
    requires Abs(a - b) <= e && area > 0.0
    ensures Abs(a * area - b * area) <= e * area
  {
    assert a * area - b * area == (a - b) * area;
    Times(a - b, e, area);
    Times(-e, a - b, area);
  }

  lemma TotalError(total: real, price: real, raw: real, area: real)
    requires area > 0.0 && Abs(price - raw) <= 0.005 && Abs(total - Scaled(price, area)) <= 0.005
    ensures Abs(total - Scaled(raw, area)) <= 0.005 * (area + 1.0)
  {
    ScaledError(price, raw, 0.005, area);
    AddError(total, Scaled(price, area), price * area, raw * area, 0.005, 0.005 * area);
  }

  lemma TotalWithin(raw: real, area: real)
    requires area > 0.0
    ensures Abs(RoundTo(Scaled(RoundTo(raw, 2), area), 2) - Scaled(raw, area)) <= 0.005 * (area + 1.0)
  {
    Shifts();
    RoundToNearest(raw, 2);
    var price := RoundTo(raw, 2);
    RoundToNearest(Scaled(price, area), 2);
    TotalError(RoundTo(Scaled(price, area), 2), price, raw, area);
  }

  /// The reported total is within 0.005 (area + 1) of the unrounded weighted price times the area.
  lemma ReportedTotal(cfg: FormulaConfig, pow: Power, input: CalculationInput, now: int)
    requires input.subject.area > 0.0 && |input.analogs| >= 2
    ensures var raw := RawPrice(Adjusted(cfg, pow, input)); var area := input.subject.area;
      Abs(Calculate(cfg, pow, input, now).totalMarketValue - Scaled(raw, area)) <= 0.005 * (area + 1.0)
  {
    TotalWithin(RawPrice(Adjusted(cfg, pow, input)), input.subject.area);
  }

  /// The market value written to the appraisal reads back as exactly the reported total.
  lemma PrintedTotalReadsBack(cfg: FormulaConfig, pow: Power, input: CalculationInput, now: int)
    requires input.subject.area > 0.0 && |input.analogs| >= 2
    ensures var total := Calculate(cfg, pow, input, now).totalMarketValue;
      IsDecimal(FormatFloat(total)) && ParseDecimal(FormatFloat(total)) == total
  {
    var total := Calculate(cfg, pow, input, now).totalMarketValue;
    RoundToHasPlaces(Scaled(RoundTo(RawPrice(Adjusted(cfg, pow, input)), 2), input.subject.area), 2);
    FormatExact(total);
  }
}
