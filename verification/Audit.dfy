/// The per-analog report can be checked from its prices alone: each reported coefficient is the ratio of the
/// prices after and before its step, each absolute adjustment is that ratio's distance from 1 in percent. One line
/// can fail, the repair line of an analog bargained down by more than its price.

module Audit {
  import opened Apartment
  import opened Rounding
  import opened Valuation
  import opened Invariances

  /// The step from one price to the next is reported with this coefficient and this absolute adjustment.
  predicate Explains(before: real, after: real, coefficient: real, adjustment: real)
    requires before != 0.0
  {
    coefficient == RoundTo(Ratio(after, before), 4) && adjustment == PercentOff(Ratio(after, before))
  }

  lemma RatioOfStep(price: real, k: real)
    requires price != 0.0
    ensures Ratio(Scaled(price, k), price) == k
  {
  }

  /// With a bargaining percent below 100 the repair step is multiplication by the repair factor in every mode.
  lemma RepairIsScaling(mode: string, price: real, delta: real)
    requires price > 0.0
    ensures Repaired(mode, price, delta) == Scaled(price, RepairFactor(price, delta)) == price + delta
  {
    RepairModes("additive_equivalent", price, delta);
    assert Repaired("additive_equivalent", price, delta) == price + delta;
    assert Repaired(DIRECT, price, delta) == Scaled(price, RepairFactor(price, delta));
  }

  /// Unless bargaining takes off everything, no price of the first three steps is zero.
  lemma PricesNonZero(cfg: FormulaConfig, pow: Power, s: Subject, a: Analog)
    requires PositivePower(pow) && s.area > 0.0 && a.area > 0.0 && a.price > 0.0
    ensures var c := ChainOf(cfg, pow, s, a);
      && (c.x1 == 0.0 <==> a.bargaining == 100.0)
      && (c.x2 == 0.0 <==> a.bargaining == 100.0)
      && (c.x3 == 0.0 <==> a.bargaining == 100.0)
      && (c.x1 > 0.0 <==> a.bargaining < 100.0)
      && (c.x2 > 0.0 <==> a.bargaining < 100.0)
      && (c.x3 > 0.0 <==> a.bargaining < 100.0)
  {
    var c := ChainOf(cfg, pow, s, a);
    LocationPositive(cfg, s, a);
    AreaPositive(cfg, pow, s, a);
    SignOfProduct(1.0 - a.bargaining / 100.0, a.price);
    assert Bargained(a) == Scaled(1.0 - a.bargaining / 100.0, a.price);
    SignOfProduct(c.x1, c.k1);
    SignOfProduct(c.x2, c.k2);
    AreaPriceSign(cfg, pow, s, a);
  }

  /// Below 100 percent the repair line follows from its prices in every mode; above, in the direct mode, or when
  /// there is nothing to repair.
  predicate RepairFollows(cfg: FormulaConfig, s: Subject, a: Analog)
    requires s.area > 0.0
  {
    a.bargaining < 100.0 || cfg.repairMode == DIRECT || RepairDelta(cfg, s, a) == 0.0
  }

  lemma RepairLine(mode: string, price: real, delta: real)
    requires price != 0.0
    ensures RepairFactor(price, delta) == Ratio(Repaired(mode, price, delta), price) <==>
      price > 0.0 || mode == DIRECT || delta == 0.0
    ensures price < 0.0 ==> RepairFactor(price, delta) == 1.0
  {
    if price > 0.0 {
      RepairIsScaling(mode, price, delta);
      RatioOfStep(price, RepairFactor(price, delta));
    } else if mode == DIRECT {
      RatioOfStep(price, 1.0);
    } else {
      assert Ratio(price + delta, price) * price == price + delta;
    }
  }

  lemma ChainExplains(cfg: FormulaConfig, pow: Power, s: Subject, a: Analog)
    requires PositivePower(pow) && s.area > 0.0 && a.area > 0.0 && a.price > 0.0 && a.bargaining != 100.0
    ensures var c := ChainOf(cfg, pow, s, a);
      && c.x1 != 0.0 && c.x2 != 0.0 && c.x3 != 0.0
      && c.k1 == Ratio(c.x2, c.x1) && c.k2 == Ratio(c.x3, c.x2)
      && (c.k3 == Ratio(c.x4, c.x3) <==> RepairFollows(cfg, s, a))
      && c.delta == RepairDelta(cfg, s, a)
  {
    var c := ChainOf(cfg, pow, s, a);
    PricesNonZero(cfg, pow, s, a);
    RatioOfStep(c.x1, c.k1);
    RatioOfStep(c.x2, c.k2);
    RepairLine(cfg.repairMode, c.x3, c.delta);
  }

  lemma OffOne(k: real)
    ensures PercentOff(k) == PercentOff(1.0) <==> k == 1.0
  {
  }

  lemma RepairDifference(mode: string, price: real, delta: real)
    ensures Repaired(mode, price, delta) - price == if price > 0.0 || mode != DIRECT then delta else 0.0
  {
    if price > 0.0 {
      RepairIsScaling(mode, price, delta);
    }
  }

  lemma BargainingPercent(a: Analog)
    requires a.price > 0.0
    ensures PercentOff(Ratio(Bargained(a), a.price)) == Abs(a.bargaining)
  {
    RatioOfStep(a.price, 1.0 - a.bargaining / 100.0);
    assert Bargained(a) == Scaled(a.price, 1.0 - a.bargaining / 100.0);
  }

  /// Every line of an analog's report follows from the prices it reports, whatever the configuration. At a
  /// bargaining percent of exactly 100 the first three prices are zero and no ratio exists. The repair line
  /// follows if and only if the percent is below 100, the mode is direct, or there is no repair difference.
  lemma ReportAudits(cfg: FormulaConfig, pow: Power, s: Subject, a: Analog, index: int)
    requires PositivePower(pow) && s.area > 0.0 && a.area > 0.0 && a.price > 0.0
    ensures var r := Adjust(cfg, pow, s, a, index);
      && r.index == index && r.analog == a
      && PercentOff(Ratio(r.priceAfterBargaining, a.price)) == r.bargainingAbsAdj
      && (r.priceAfterBargaining == 0.0 <==> a.bargaining == 100.0)
      && (r.priceAfterLocation == 0.0 <==> a.bargaining == 100.0)
      && (r.priceAfterArea == 0.0 <==> a.bargaining == 100.0)
      && (a.bargaining < 100.0 ==>
            r.priceAfterBargaining > 0.0 && r.priceAfterLocation > 0.0 && r.priceAfterArea > 0.0)
      && (a.bargaining != 100.0 ==>
            && Explains(r.priceAfterBargaining, r.priceAfterLocation, r.locationCoeff, r.locationAbsAdj)
            && Explains(r.priceAfterLocation, r.priceAfterArea, r.areaCoeff, r.areaAbsAdj)
            && (Explains(r.priceAfterArea, r.priceAfterRepair, r.repairCoeff, r.repairAbsAdj) <==>
                  RepairFollows(cfg, s, a)))
      && (r.repairCostDelta == RoundTo(r.priceAfterRepair - r.priceAfterArea, 2) <==>
            a.bargaining < 100.0 || cfg.repairMode != DIRECT || RoundTo(RepairDelta(cfg, s, a), 2) == RoundTo(0.0, 2))
      && (r.priceAfterRepair != 0.0 ==> Explains(r.priceAfterRepair, r.priceAfterFloor, r.floorCoeff, r.floorAbsAdj))
      && r.totalAbsAdjustment ==
           RoundTo(r.bargainingAbsAdj + r.locationAbsAdj + r.areaAbsAdj + r.repairAbsAdj + r.floorAbsAdj, 2)
  {
    var c := ChainOf(cfg, pow, s, a);
    PricesNonZero(cfg, pow, s, a);
    BargainingPercent(a);
    if a.bargaining != 100.0 {
      ChainExplains(cfg, pow, s, a);
      RepairLine(cfg.repairMode, c.x3, c.delta);
      OffOne(Ratio(c.x4, c.x3));
    }
    if c.x4 != 0.0 {
      RatioOfStep(c.x4, c.k4);
    }
    RepairDifference(cfg.repairMode, c.x3, c.delta);
  }
}
