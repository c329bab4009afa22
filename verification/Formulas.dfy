/// The valuation as arithmetic between the fields of a result and the input and configuration it came from,
/// step by step and then for the price, the weights and the total. Nothing here is said through the functions
/// that specify the calculation's steps.

module Formulas {
  import opened Apartment
  import opened Rounding
  import opened Valuation
  import opened Reconciliation
  import opened Invariances

  // ---------- What the configuration says ----------

  /// The price of a district: that of the last entry with its name if it is positive, else 100000.
  ghost predicate DistrictCosts(cfg: FormulaConfig, district: string, p: real) {
    || (exists i ::
          LastNamed(cfg.districts, district, i) && cfg.districts[i].price > 0.0 && p == cfg.districts[i].price)
    || ((forall i :: LastNamed(cfg.districts, district, i) ==> cfg.districts[i].price <= 0.0) && p == 100000.0)
  }

  /// The unit cost of a repair class: that of the last class with this id or name, 0 without one.
  ghost predicate RepairCosts(cfg: FormulaConfig, key: string, u: real) {
    || (exists i :: LastKeyed(cfg.repairs, key, i) && u == cfg.repairs[i].unitCost)
    || ((forall i :: 0 <= i < |cfg.repairs| ==> cfg.repairs[i].id != key && cfg.repairs[i].name != key) && u == 0.0)
  }

  lemma {:induction false} SomeLastNamed(list: seq<DistrictPrice>, name: string)
    ensures (exists i :: LastNamed(list, name, i)) || (forall i :: 0 <= i < |list| ==> list[i].name != name)
  {
    if list != [] {
      var n := |list| - 1;
      if list[n].name == name {
        assert LastNamed(list, name, n);
      } else {
        SomeLastNamed(list[..n], name);
        if i :| LastNamed(list[..n], name, i) {
          assert LastNamed(list, name, i);
        } else {
          assert forall i :: 0 <= i < n ==> list[..n][i] == list[i];
        }
      }
    }
  }

  lemma DistrictCostsIs(cfg: FormulaConfig, district: string, p: real)
    requires DistrictCosts(cfg, district, p)
    ensures p == DistrictPriceOf(cfg, district) && p > 0.0
  {
    DistrictInForce(cfg.districts, district);
    SomeLastNamed(cfg.districts, district);
  }

  lemma RepairCostsIs(cfg: FormulaConfig, key: string, u: real)
    requires RepairCosts(cfg, key, u)
    ensures u == LastUnitCost(cfg.repairs, key)
  {
    RepairInForce(cfg.repairs, key);
  }

  /// The configuration that migrations/000003_create_formula_configs_table.up.sql puts into the table.
  function SeedConfig(): FormulaConfig {
    FormulaConfig(
      scale := ScaleFormula(a := 1.17, b := -0.05),
      districts := [
        DistrictPrice(name := "Центральный", price := 120000.0), DistrictPrice(name := "Северный", price := 100000.0),
        DistrictPrice(name := "Южный", price := 95000.0), DistrictPrice(name := "Западный", price := 110000.0),
        DistrictPrice(name := "Восточный", price := 90000.0), DistrictPrice(name := "Пригород", price := 75000.0)],
      conditions := map["excellent" := 1.0, "good" := 0.67, "satisfactory" := 0.33, "unsatisfactory" := 0.0],
      repairs := [
        RepairClass(id := "class_1", name := "Класс 1", unitCost := 20.0),
        RepairClass(id := "class_2", name := "Класс 2", unitCost := 15.0),
        RepairClass(id := "class_3", name := "Класс 3", unitCost := 10.0),
        RepairClass(id := "class_4", name := "Класс 4", unitCost := 5.0),
        RepairClass(id := "class_5", name := "Класс 5", unitCost := 1.0)],
      floors := map[
        "first" := map["first" := 1.0, "middle" := 0.97, "last" := 0.98],
        "middle" := map["first" := 1.03, "middle" := 1.0, "last" := 1.01],
        "last" := map["first" := 1.02, "middle" := 0.99, "last" := 1.0]],
      locationMode := "doc_formula",
      repairMode := "multiplicative_direct")
  }

  /// The default in the code and the seed in the database are the same configuration.
  lemma SeedIsDefault()
    ensures SeedConfig() == DefaultConfig()
  {
  }

  /// The district prices of the default configuration.
  lemma DefaultDistricts()
    ensures DistrictCosts(DefaultConfig(), "Центральный", 120000.0)
    ensures DistrictCosts(DefaultConfig(), "Северный", 100000.0)
    ensures DistrictCosts(DefaultConfig(), "Южный", 95000.0) && DistrictCosts(DefaultConfig(), "Западный", 110000.0)
    ensures DistrictCosts(DefaultConfig(), "Восточный", 90000.0) && DistrictCosts(DefaultConfig(), "Пригород", 75000.0)
  {
    var list := DefaultConfig().districts;
    assert LastNamed(list, "Центральный", 0) && LastNamed(list, "Северный", 1) && LastNamed(list, "Южный", 2);
    assert LastNamed(list, "Западный", 3) && LastNamed(list, "Восточный", 4) && LastNamed(list, "Пригород", 5);
  }

  lemma DefaultRepair(i: nat, id: string, name: string, u: real)
    requires i < 5 && DefaultConfig().repairs[i] == RepairClass(id, name, u)
    ensures RepairCosts(DefaultConfig(), id, u) && RepairCosts(DefaultConfig(), name, u)
  {
    var list := DefaultConfig().repairs;
    assert LastKeyed(list, id, i) && LastKeyed(list, name, i);
  }

  /// Its repair costs, by id and by name.
  lemma DefaultRepairs()
    ensures RepairCosts(DefaultConfig(), "class_1", 20.0) && RepairCosts(DefaultConfig(), "Класс 1", 20.0)
    ensures RepairCosts(DefaultConfig(), "class_2", 15.0) && RepairCosts(DefaultConfig(), "Класс 2", 15.0)
  {
    DefaultRepair(0, "class_1", "Класс 1", 20.0);
    DefaultRepair(1, "class_2", "Класс 2", 15.0);
  }

  lemma DefaultCheapRepairs()
    ensures RepairCosts(DefaultConfig(), "class_3", 10.0) && RepairCosts(DefaultConfig(), "Класс 3", 10.0)
    ensures RepairCosts(DefaultConfig(), "class_4", 5.0) && RepairCosts(DefaultConfig(), "Класс 4", 5.0)
    ensures RepairCosts(DefaultConfig(), "class_5", 1.0) && RepairCosts(DefaultConfig(), "Класс 5", 1.0)
  {
    DefaultRepair(2, "class_3", "Класс 3", 10.0);
    DefaultRepair(3, "class_4", "Класс 4", 5.0);
    DefaultRepair(4, "class_5", "Класс 5", 1.0);
  }

  // ---------- One analog ----------

  /// Bargaining takes its percent off the price.
  predicate BargainingLine(a: Analog, x1: real) {
    100.0 * x1 == a.price * (100.0 - a.bargaining)
  }

  /// The location step turns a price in the analog's district into one in the subject's.
  ghost predicate LocationLine(cfg: FormulaConfig, s: Subject, a: Analog, x1: real, x2: real) {
    forall ps, pa :: DistrictCosts(cfg, s.district, ps) && DistrictCosts(cfg, a.district, pa) ==> x2 * pa == x1 * ps
  }

  /// The area step corrects by the powers of the areas; with a scale constant that is not positive it does nothing.
  predicate AreaLine(cfg: FormulaConfig, pow: Power, s: Subject, a: Analog, x2: real, x3: real) {
    if cfg.scale.a > 0.0 then x3 * pow(a.area, cfg.scale.b) == x2 * pow(s.area, cfg.scale.b) else x3 == x2
  }

  /// The repair step adds the subject's repair cost and takes off the analog's, each its unit cost times its
  /// condition, per square metre of the subject. Only in the direct mode, and only for an analog whose price
  /// bargaining has used up, does it add nothing.
  ghost predicate RepairLine(cfg: FormulaConfig, s: Subject, a: Analog, x3: real, x4: real) {
    var ks := if s.condition in cfg.conditions then cfg.conditions[s.condition] else 0.67;
    var ka := if a.condition in cfg.conditions then cfg.conditions[a.condition] else 0.67;
    if a.bargaining < 100.0 || cfg.repairMode != "multiplicative_direct" then
      forall us, ua :: RepairCosts(cfg, s.repairClass, us) && RepairCosts(cfg, a.repairClass, ua) ==>
        (x4 - x3) * s.area == us * ks - ua * ka
    else x4 == x3
  }

  /// The floor step multiplies by the entry of the floor matrix, row of the subject, column of the analog, if there
  /// is one.
  predicate FloorLine(cfg: FormulaConfig, s: Subject, a: Analog, x4: real, x5: real) {
    if s.floor in cfg.floors && a.floor in cfg.floors[s.floor]
    then x5 == x4 * cfg.floors[s.floor][a.floor]
    else x5 == x4
  }

  lemma RatioTimes(x: real, p: real, q: real)
    requires q != 0.0
    ensures Scaled(x, Ratio(p, q)) * q == x * p
  {
    assert Ratio(p, q) * q == p;
    assert x * (Ratio(p, q) * q) == Scaled(x, Ratio(p, q)) * q;
  }

  lemma BargainingFollows(a: Analog)
    ensures BargainingLine(a, Bargained(a))
  {
  }

  lemma LocationTimes(cfg: FormulaConfig, s: Subject, a: Analog, x1: real, ps: real, pa: real)
    requires DistrictCosts(cfg, s.district, ps) && DistrictCosts(cfg, a.district, pa)
    ensures Scaled(x1, LocationFactor(cfg, s, a)) * pa == x1 * ps
  {
    DistrictCostsIs(cfg, s.district, ps);
    DistrictCostsIs(cfg, a.district, pa);
    LocationIsRatio(cfg, s, a);
    RatioTimes(x1, ps, pa);
  }

  lemma LocationFollows(cfg: FormulaConfig, s: Subject, a: Analog, x1: real)
    ensures LocationLine(cfg, s, a, x1, Scaled(x1, LocationFactor(cfg, s, a)))
  {
    forall ps, pa | DistrictCosts(cfg, s.district, ps) && DistrictCosts(cfg, a.district, pa)
      ensures Scaled(x1, LocationFactor(cfg, s, a)) * pa == x1 * ps
    {
      LocationTimes(cfg, s, a, x1, ps, pa);
    }
  }

  lemma NoScale(a: real, p: real)
    requires a <= 0.0 && p > 0.0
    ensures Scaled(a, p) <= 0.0
  {
  }

  lemma AreaFollows(cfg: FormulaConfig, pow: Power, s: Subject, a: Analog, x2: real)
    requires PositivePower(pow) && s.area > 0.0 && a.area > 0.0
    ensures AreaLine(cfg, pow, s, a, x2, Scaled(x2, AreaFactor(cfg, pow, s, a)))
  {
    if cfg.scale.a > 0.0 {
      AreaIsPowerRatio(cfg, pow, s, a);
      RatioTimes(x2, pow(s.area, cfg.scale.b), pow(a.area, cfg.scale.b));
    } else {
      NoScale(cfg.scale.a, pow(a.area, cfg.scale.b));
      assert AreaFactor(cfg, pow, s, a) == 1.0;
    }
  }

  lemma DeltaTimesArea(cfg: FormulaConfig, s: Subject, a: Analog, us: real, ua: real)
    requires s.area > 0.0 && RepairCosts(cfg, s.repairClass, us) && RepairCosts(cfg, a.repairClass, ua)
    ensures RepairDelta(cfg, s, a) * s.area ==
      us * (if s.condition in cfg.conditions then cfg.conditions[s.condition] else 0.67)
      - ua * (if a.condition in cfg.conditions then cfg.conditions[a.condition] else 0.67)
  {
    RepairCostsIs(cfg, s.repairClass, us);
    RepairCostsIs(cfg, a.repairClass, ua);
    RatioTimes(1.0, Scaled(us, ConditionOf(cfg, s.condition)) - Scaled(ua, ConditionOf(cfg, a.condition)), s.area);
  }

  lemma RepairFollows(cfg: FormulaConfig, s: Subject, a: Analog, x3: real)
    requires s.area > 0.0 && (x3 > 0.0 <==> a.bargaining < 100.0)
    ensures RepairLine(cfg, s, a, x3, Repaired(cfg.repairMode, x3, RepairDelta(cfg, s, a)))
  {
    var delta := RepairDelta(cfg, s, a);
    RepairModes("additive_equivalent", x3, delta);
    forall us, ua | RepairCosts(cfg, s.repairClass, us) && RepairCosts(cfg, a.repairClass, ua)
      ensures delta * s.area ==
        us * (if s.condition in cfg.conditions then cfg.conditions[s.condition] else 0.67)
        - ua * (if a.condition in cfg.conditions then cfg.conditions[a.condition] else 0.67)
    {
      DeltaTimesArea(cfg, s, a, us, ua);
    }
  }

  /// All five lines for the prices after the five steps.
  ghost predicate StepsFollow(cfg: FormulaConfig, pow: Power, s: Subject, a: Analog,
                              x1: real, x2: real, x3: real, x4: real, x5: real) {
    && BargainingLine(a, x1)
    && LocationLine(cfg, s, a, x1, x2)
    && AreaLine(cfg, pow, s, a, x2, x3)
    && RepairLine(cfg, s, a, x3, x4)
    && FloorLine(cfg, s, a, x4, x5)
  }

  lemma ChainFollows(cfg: FormulaConfig, pow: Power, s: Subject, a: Analog)
    requires PositivePower(pow) && s.area > 0.0 && a.area > 0.0 && a.price > 0.0
    ensures var c := ChainOf(cfg, pow, s, a); StepsFollow(cfg, pow, s, a, c.x1, c.x2, c.x3, c.x4, c.x5)
  {
    var c := ChainOf(cfg, pow, s, a);
    BargainingFollows(a);
    LocationFollows(cfg, s, a, c.x1);
    AreaFollows(cfg, pow, s, a, c.x2);
    AreaPriceSign(cfg, pow, s, a);
    RepairFollows(cfg, s, a, c.x3);
  }

  lemma ResultFields(cfg: FormulaConfig, pow: Power, input: CalculationInput, now: int, i: nat)
    requires input.subject.area > 0.0 && |input.analogs| >= 2 && i < |input.analogs|
    ensures |Calculate(cfg, pow, input, now).analogs| == |input.analogs|
    ensures var r := Calculate(cfg, pow, input, now).analogs[i];
      var c := ChainOf(cfg, pow, input.subject, input.analogs[i]);
      && r.index == i + 1 && r.analog == input.analogs[i]
      && r.priceAfterBargaining == c.x1 && r.priceAfterLocation == c.x2 && r.priceAfterArea == c.x3
      && r.priceAfterRepair == c.x4 && r.priceAfterFloor == c.x5
  {
    AdjustedAt(cfg, pow, input, i);
  }

  /// In a result every analog is reported in its place, with prices that follow from each other, the input and
  /// the configuration by the five lines.
  lemma ResultFollows(cfg: FormulaConfig, pow: Power, input: CalculationInput, now: int, i: nat)
    requires ValidInput(input) && PositivePower(pow) && i < 4
    ensures |Calculate(cfg, pow, input, now).analogs| == 4
    ensures var r := Calculate(cfg, pow, input, now).analogs[i];
      && r.index == i + 1 && r.analog == input.analogs[i]
      && StepsFollow(cfg, pow, input.subject, input.analogs[i], r.priceAfterBargaining, r.priceAfterLocation,
                     r.priceAfterArea, r.priceAfterRepair, r.priceAfterFloor)
  {
    ChainFollows(cfg, pow, input.subject, input.analogs[i]);
    ResultFields(cfg, pow, input, now, i);
  }

  // ---------- Repair costs ----------

  lemma DearerRaises(x: real, y: real, y': real, area: real, us: real, us': real, ks: real, ua: real, ua': real,
                     ka: real)
    requires area > 0.0
    requires (y - x) * area == us * ks - ua * ka && (y' - x) * area == us' * ks - ua' * ka
    ensures us < us' && ua == ua' && ks > 0.0 ==> y < y'
    ensures us == us' && ua < ua' && ka > 0.0 ==> y > y'
  {
    assert (y' - y) * area == (us' - us) * ks - (ua' - ua) * ka;
    if us < us' && ua == ua' && ks > 0.0 {
      assert (us' - us) * ks > 0.0;
    }
    if us == us' && ua < ua' && ka > 0.0 {
      assert (ua' - ua) * ka > 0.0;
    }
  }

  /// The price after the repair step of an analog bargained below 100 percent.
  function RepairedPrice(cfg: FormulaConfig, pow: Power, s: Subject, a: Analog): real
    requires s.area > 0.0
  {
    Adjust(cfg, pow, s, a, 1).priceAfterRepair
  }

  lemma FactorsIgnoreRepairClass(cfg: FormulaConfig, pow: Power, s: Subject, a: Analog, s': Subject, a': Analog)
    requires s.area > 0.0
    requires s' == s.(repairClass := s'.repairClass) && a' == a.(repairClass := a'.repairClass)
    ensures Bargained(a') == Bargained(a)
    ensures LocationFactor(cfg, s', a') == LocationFactor(cfg, s, a)
    ensures AreaFactor(cfg, pow, s', a') == AreaFactor(cfg, pow, s, a)
  {
  }

  lemma SameBeforeRepair(cfg: FormulaConfig, pow: Power, s: Subject, a: Analog, s': Subject, a': Analog)
    requires s.area > 0.0
    requires s' == s.(repairClass := s'.repairClass) && a' == a.(repairClass := a'.repairClass)
    ensures ChainOf(cfg, pow, s', a').x3 == ChainOf(cfg, pow, s, a).x3
  {
    FactorsIgnoreRepairClass(cfg, pow, s, a, s', a');
  }

  lemma RepairedPriceIs(cfg: FormulaConfig, pow: Power, s: Subject, a: Analog)
    requires s.area > 0.0
    ensures RepairedPrice(cfg, pow, s, a) == ChainOf(cfg, pow, s, a).x4
  {
  }

  lemma RepairLineAt(cfg: FormulaConfig, s: Subject, a: Analog, x: real, y: real, us: real, ua: real)
    requires a.bargaining < 100.0 && RepairLine(cfg, s, a, x, y)
    requires RepairCosts(cfg, s.repairClass, us) && RepairCosts(cfg, a.repairClass, ua)
    ensures (y - x) * s.area ==
      us * (if s.condition in cfg.conditions then cfg.conditions[s.condition] else 0.67)
      - ua * (if a.condition in cfg.conditions then cfg.conditions[a.condition] else 0.67)
  {
  }

  lemma RepairLinesCompare(cfg: FormulaConfig, s: Subject, a: Analog, s': Subject, a': Analog,
                           x: real, y: real, y': real, us: real, ua: real, us': real, ua': real)
    requires s.area > 0.0 && a.bargaining < 100.0
    requires s' == s.(repairClass := s'.repairClass) && a' == a.(repairClass := a'.repairClass)
    requires RepairCosts(cfg, s.repairClass, us) && RepairCosts(cfg, s'.repairClass, us')
    requires RepairCosts(cfg, a.repairClass, ua) && RepairCosts(cfg, a'.repairClass, ua')
    requires RepairLine(cfg, s, a, x, y) && RepairLine(cfg, s', a', x, y')
    ensures us < us' && ua == ua' && (s.condition in cfg.conditions ==> cfg.conditions[s.condition] > 0.0) ==> y < y'
    ensures us == us' && ua < ua' && (a.condition in cfg.conditions ==> cfg.conditions[a.condition] > 0.0) ==> y > y'
  {
    var ks := if s.condition in cfg.conditions then cfg.conditions[s.condition] else 0.67;
    var ka := if a.condition in cfg.conditions then cfg.conditions[a.condition] else 0.67;
    RepairLineAt(cfg, s, a, x, y, us, ua);
    RepairLineAt(cfg, s', a', x, y', us', ua');
    DearerRaises(x, y, y', s.area, us, us', ks, ua, ua', ka);
  }

  /// A dearer repair of the subject raises the price after the repair step, a dearer repair of the analog lowers
  /// it, unless the condition makes the repair count for nothing.
  lemma RepairMonotone(cfg: FormulaConfig, pow: Power, s: Subject, a: Analog, s': Subject, a': Analog,
                       us: real, ua: real, us': real, ua': real)
    requires PositivePower(pow) && s.area > 0.0 && a.area > 0.0 && a.price > 0.0 && a.bargaining < 100.0
    requires s' == s.(repairClass := s'.repairClass) && a' == a.(repairClass := a'.repairClass)
    requires RepairCosts(cfg, s.repairClass, us) && RepairCosts(cfg, s'.repairClass, us')
    requires RepairCosts(cfg, a.repairClass, ua) && RepairCosts(cfg, a'.repairClass, ua')
    ensures us < us' && ua == ua' && (s.condition in cfg.conditions ==> cfg.conditions[s.condition] > 0.0) ==>
      RepairedPrice(cfg, pow, s, a) < RepairedPrice(cfg, pow, s', a')
    ensures us == us' && ua < ua' && (a.condition in cfg.conditions ==> cfg.conditions[a.condition] > 0.0) ==>
      RepairedPrice(cfg, pow, s, a) > RepairedPrice(cfg, pow, s', a')
  {
    var x, y, y' := ChainOf(cfg, pow, s, a).x3, ChainOf(cfg, pow, s, a).x4, ChainOf(cfg, pow, s', a').x4;
    SameBeforeRepair(cfg, pow, s, a, s', a');
    RepairedPriceIs(cfg, pow, s, a);
    RepairedPriceIs(cfg, pow, s', a');
    ChainFollows(cfg, pow, s, a);
    ChainFollows(cfg, pow, s', a');
    RepairLinesCompare(cfg, s, a, s', a', x, y, y', us, ua, us', ua');
  }

  // ---------- Price, weights and total ----------

  /// The reported price of four analogs with adjustments m and adjusted prices p, S the sum of adjustments: each
  /// counts with what the others were adjusted; without any adjustment all count alike. The slack is the rounding.
  predicate PriceLine(S: real, m: (real, real, real, real), p: (real, real, real, real), price: real) {
    if S > 0.0 then
      Abs(3.0 * S * price - ((S - m.0) * p.0 + (S - m.1) * p.1 + (S - m.2) * p.2 + (S - m.3) * p.3)) <= 0.015 * S
    else Abs(4.0 * price - (p.0 + p.1 + p.2 + p.3)) <= 0.02
  }

  /// The reported weight of one of four analogs.
  predicate WeightLine(S: real, m: real, w: real) {
    if S > 0.0 then Abs(3.0 * S * w - (S - m)) <= 0.00015 * S else w == 0.25
  }

  /// The reported total is the reported price times the area, to the cent.
  predicate TotalLine(price: real, area: real, total: real) {
    Abs(total - price * area) <= 0.005
  }

  lemma WeighedTermIs(S: real, m: real, p: real)
    requires S > 0.0
    ensures 3.0 * S * Scaled(p, Weight(m, S, 4)) == (S - m) * p
  {
    var q := m / S;
    assert q * S == m;
    assert 3.0 * Weight(m, S, 4) == 1.0 - q;
    assert (S * (1.0 - q)) * p == (S - m) * p;
  }

  lemma TimesTerms(k: real, raw: real, t: (real, real, real, real), u: (real, real, real, real))
    requires raw == t.0 + t.1 + t.2 + t.3
    requires k * t.0 == u.0 && k * t.1 == u.1 && k * t.2 == u.2 && k * t.3 == u.3
    ensures k * raw == u.0 + u.1 + u.2 + u.3
  {
  }

  function WeighedTerms(S: real, m: (real, real, real, real), p: (real, real, real, real)): (real, real, real, real) {
    (Scaled(p.0, Weight(m.0, S, 4)), Scaled(p.1, Weight(m.1, S, 4)),
     Scaled(p.2, Weight(m.2, S, 4)), Scaled(p.3, Weight(m.3, S, 4)))
  }

  lemma WeighedSum(S: real, m: (real, real, real, real), p: (real, real, real, real), raw: real)
    requires S > 0.0
    requires var t := WeighedTerms(S, m, p); raw == t.0 + t.1 + t.2 + t.3
    ensures 3.0 * S * raw == (S - m.0) * p.0 + (S - m.1) * p.1 + (S - m.2) * p.2 + (S - m.3) * p.3
  {
    WeighedTermIs(S, m.0, p.0);
    WeighedTermIs(S, m.1, p.1);
    WeighedTermIs(S, m.2, p.2);
    WeighedTermIs(S, m.3, p.3);
    TimesTerms(3.0 * S, raw, WeighedTerms(S, m, p),
               ((S - m.0) * p.0, (S - m.1) * p.1, (S - m.2) * p.2, (S - m.3) * p.3));
  }

  lemma EvenSum(S: real, m: (real, real, real, real), p: (real, real, real, real), raw: real)
    requires S <= 0.0
    requires var t := WeighedTerms(S, m, p); raw == t.0 + t.1 + t.2 + t.3
    ensures 4.0 * raw == p.0 + p.1 + p.2 + p.3
  {
  }

  lemma ErrorTimes(k: real, x: real, y: real, e: real)
    requires k > 0.0 && Abs(x - y) <= e
    ensures Abs(k * x - k * y) <= k * e
  {
    assert k * x - k * y == k * (x - y);
    Times(x - y, e, k);
    Times(-e, x - y, k);
  }

  lemma CloseTo(k: real, x: real, y: real, z: real, e: real, f: real)
    requires k > 0.0 && k * y == z && Abs(x - y) <= e && k * e <= f
    ensures Abs(k * x - z) <= f
  {
    ErrorTimes(k, x, y, e);
  }

  /// From the unrounded mean to the reported price.
  lemma PriceLineFrom(S: real, m: (real, real, real, real), p: (real, real, real, real), raw: real, price: real)
    requires var t := WeighedTerms(S, m, p); raw == t.0 + t.1 + t.2 + t.3
    requires Abs(price - raw) <= 0.005
    ensures PriceLine(S, m, p, price)
  {
    if S > 0.0 {
      WeighedSum(S, m, p, raw);
      CloseTo(3.0 * S, price, raw, (S - m.0) * p.0 + (S - m.1) * p.1 + (S - m.2) * p.2 + (S - m.3) * p.3,
              0.005, 0.015 * S);
    } else {
      EvenSum(S, m, p, raw);
    }
  }

  lemma WeightLineFrom(S: real, m: real, w: real)
    requires Abs(w - Weight(m, S, 4)) <= 0.00005
    requires S <= 0.0 ==> w == Weight(m, S, 4)
    ensures WeightLine(S, m, w)
  {
    if S > 0.0 {
      WeighedTermIs(S, m, 1.0);
      ErrorTimes(3.0 * S, w, Weight(m, S, 4), 0.00005);
    }
  }

  lemma SumOfFour(xs: seq<real>)
    requires |xs| == 4
    ensures Sum(xs) == xs[0] + xs[1] + xs[2] + xs[3]
  {
    assert xs[..4] == xs && xs[..0] == [];
    SumSnoc(xs, 3);
    SumSnoc(xs, 2);
    SumSnoc(xs, 1);
    SumSnoc(xs, 0);
  }

  function Adjustments(rs: seq<AnalogResult>): (real, real, real, real)
    requires |rs| == 4
  {
    (rs[0].totalAbsAdjustment, rs[1].totalAbsAdjustment, rs[2].totalAbsAdjustment, rs[3].totalAbsAdjustment)
  }

  function FinalPrices(rs: seq<AnalogResult>): (real, real, real, real)
    requires |rs| == 4
  {
    (rs[0].priceAfterFloor, rs[1].priceAfterFloor, rs[2].priceAfterFloor, rs[3].priceAfterFloor)
  }

  lemma RawPriceIs(rs: seq<AnalogResult>)
    requires |rs| == 4
    ensures var S := Sum(Totals(rs)); var m := Adjustments(rs); var p := FinalPrices(rs);
      var t := WeighedTerms(S, m, p); RawPrice(rs) == t.0 + t.1 + t.2 + t.3
  {
    SumOfFour(Products(Prices(rs), Weights(Totals(rs))));
  }

  lemma RoundedPriceFollows(rs: seq<AnalogResult>)
    requires |rs| == 4
    ensures PriceLine(Sum(Totals(rs)), Adjustments(rs), FinalPrices(rs), RoundTo(RawPrice(rs), 2))
  {
    Shifts();
    RawPriceIs(rs);
    RoundToNearest(RawPrice(rs), 2);
    PriceLineFrom(Sum(Totals(rs)), Adjustments(rs), FinalPrices(rs), RawPrice(rs), RoundTo(RawPrice(rs), 2));
  }

  lemma RoundedWeightFollows(S: real, m: real)
    ensures WeightLine(S, m, RoundTo(Weight(m, S, 4), 4))
  {
    Shifts();
    RoundToNearest(Weight(m, S, 4), 4);
    if S <= 0.0 {
      assert 0.25 == Decimal(2500, 4);
      RoundToExact(0.25, 4);
    }
    WeightLineFrom(S, m, RoundTo(Weight(m, S, 4), 4));
  }

  lemma RoundedTotalFollows(price: real, area: real)
    ensures TotalLine(price, area, RoundTo(Scaled(price, area), 2))
  {
    Shifts();
    RoundToNearest(Scaled(price, area), 2);
  }

  lemma WeighedKeeps(rs: seq<AnalogResult>)
    requires |rs| == 4
    ensures Adjustments(Weighted(rs)) == Adjustments(rs) && FinalPrices(Weighted(rs)) == FinalPrices(rs)
    ensures forall i :: 0 <= i < 4 ==>
      Weighted(rs)[i].weight == RoundTo(Weight(rs[i].totalAbsAdjustment, Sum(Totals(rs)), 4), 4)
  {
  }

  lemma SameSum(rs: seq<AnalogResult>)
    requires |rs| == 4
    ensures Totals(Weighted(rs)) == Totals(rs)
  {
  }

  /// A result's price, weights and total follow from the adjustments and adjusted prices it reports, and it
  /// repeats its subject and time.
  lemma ReconciliationFollows(cfg: FormulaConfig, pow: Power, input: CalculationInput, now: int)
    requires ValidInput(input)
    ensures var r := Calculate(cfg, pow, input, now);
      && |r.analogs| == 4 && r.subject == input.subject && r.calculatedAt == now
      && r.sumM == r.analogs[0].totalAbsAdjustment + r.analogs[1].totalAbsAdjustment
                   + r.analogs[2].totalAbsAdjustment + r.analogs[3].totalAbsAdjustment
      && PriceLine(r.sumM, Adjustments(r.analogs), FinalPrices(r.analogs), r.weightedPricePerSqM)
      && (forall i :: 0 <= i < 4 ==> WeightLine(r.sumM, r.analogs[i].totalAbsAdjustment, r.analogs[i].weight))
      && TotalLine(r.weightedPricePerSqM, input.subject.area, r.totalMarketValue)
      && HasPlaces(r.weightedPricePerSqM, 2) && HasPlaces(r.totalMarketValue, 2)
  {
    var rs := Adjusted(cfg, pow, input);
    ReportedSumExact(cfg, pow, input, now);
    WeighedKeeps(rs);
    SumOfFour(Totals(Weighted(rs)));
    SameSum(rs);
    RoundedPriceFollows(rs);
    forall i | 0 <= i < 4 {
      RoundedWeightFollows(Sum(Totals(rs)), rs[i].totalAbsAdjustment);
    }
    RoundedTotalFollows(RoundTo(RawPrice(rs), 2), input.subject.area);
    RoundToHasPlaces(RawPrice(rs), 2);
    RoundToHasPlaces(Scaled(RoundTo(RawPrice(rs), 2), input.subject.area), 2);
  }

  // ---------- The configuration matters ----------

  /// The default configuration with the first district at twice its price.
  function DearCentre(): FormulaConfig {
    DefaultConfig().(districts := [DistrictPrice("Центральный", 240000.0)] + DefaultConfig().districts[1..])
  }

  lemma TimesDiffer(x: real, y: real, y': real)
    requires x != 0.0 && y != y'
    ensures x * y != x * y'
  {
    assert x * (y - y') != 0.0;
  }

  lemma LocationLineAt(cfg: FormulaConfig, s: Subject, a: Analog, x1: real, x2: real, ps: real, pa: real)
    requires LocationLine(cfg, s, a, x1, x2)
    requires DistrictCosts(cfg, s.district, ps) && DistrictCosts(cfg, a.district, pa)
    ensures x2 * pa == x1 * ps
  {
  }

  lemma BargainedNonZero(a: Analog)
    requires a.price > 0.0 && a.bargaining != 100.0
    ensures Bargained(a) != 0.0
  {
    TimesDiffer(a.price, 1.0 - a.bargaining / 100.0, 0.0);
  }

  lemma DearCentreCosts()
    ensures DistrictCosts(DearCentre(), "Центральный", 240000.0) && DistrictCosts(DearCentre(), "Северный", 100000.0)
  {
    assert LastNamed(DearCentre().districts, "Центральный", 0) && LastNamed(DearCentre().districts, "Северный", 1);
  }

  lemma CentreLocations(s: Subject, a: Analog)
    requires s.district == "Центральный" && a.district == "Северный" && a.price > 0.0 && a.bargaining != 100.0
    ensures Scaled(Bargained(a), LocationFactor(DefaultConfig(), s, a)) !=
      Scaled(Bargained(a), LocationFactor(DearCentre(), s, a))
  {
    var x1 := Bargained(a);
    LocationFollows(DefaultConfig(), s, a, x1);
    LocationFollows(DearCentre(), s, a, x1);
    DefaultDistricts();
    DearCentreCosts();
    LocationLineAt(DefaultConfig(), s, a, x1, Scaled(x1, LocationFactor(DefaultConfig(), s, a)), 120000.0, 100000.0);
    LocationLineAt(DearCentre(), s, a, x1, Scaled(x1, LocationFactor(DearCentre(), s, a)), 240000.0, 100000.0);
    BargainedNonZero(a);
    TimesDiffer(x1, 120000.0, 240000.0);
  }

  /// Two configurations whose results differ on every valid input with the subject in the centre and an analog,
  /// not bargained down to nothing, in the north: which configuration is used matters.
  lemma CentreDiffers(pow: Power, input: CalculationInput, now: int)
    requires PositivePower(pow) && ValidInput(input)
    requires input.subject.district == "Центральный" && input.analogs[0].district == "Северный"
    requires input.analogs[0].bargaining != 100.0
    ensures Calculate(DefaultConfig(), pow, input, now) != Calculate(DearCentre(), pow, input, now)
  {
    ResultFields(DefaultConfig(), pow, input, now, 0);
    ResultFields(DearCentre(), pow, input, now, 0);
    CentreLocations(input.subject, input.analogs[0]);
  }

  lemma CentralSubject() returns (input: CalculationInput)
    ensures ValidInput(input) && input.subject.district == "Центральный"
    ensures input.analogs[0].district == "Северный" && input.analogs[0].bargaining == 0.0
  {
    var s := Subject(50.0, "Центральный", "good", "class_1", "middle");
    var a := Analog(100000.0, 0.0, 50.0, "Северный", "good", "class_1", "middle");
    input := CalculationInput(s, [a, a, a, a]);
  }

  /// There is such an input.
  lemma ConfigurationMatters(pow: Power, now: int) returns (input: CalculationInput)
    requires PositivePower(pow)
    ensures ValidInput(input)
    ensures Calculate(DefaultConfig(), pow, input, now) != Calculate(DearCentre(), pow, input, now)
  {
    input := CentralSubject();
    CentreDiffers(pow, input, now);
  }
}
