/// Entities of the apartment valuation (internal/domain/apartment.go).
/// Amounts are exact reals; conditions, floors and mode names stay strings, as in the service,
/// so unknown values are representable.

module Apartment {

  datatype DistrictPrice = DistrictPrice(name: string, price: real)

  datatype RepairClass = RepairClass(id: string, name: string, unitCost: real)

  datatype ScaleFormula = ScaleFormula(a: real, b: real)

  datatype FormulaConfig = FormulaConfig(
    scale: ScaleFormula,
    districts: seq<DistrictPrice>,
    conditions: map<string, real>,
    repairs: seq<RepairClass>,
    floors: map<string, map<string, real>>,
    locationMode: string,
    repairMode: string)

  datatype Subject = Subject(area: real, district: string, condition: string, repairClass: string, floor: string)

  datatype Analog = Analog(
    price: real,
    bargaining: real,
    area: real,
    district: string,
    condition: string,
    repairClass: string,
    floor: string)

  datatype CalculationInput = CalculationInput(subject: Subject, analogs: seq<Analog>)

  datatype AnalogResult = AnalogResult(
    index: int,
    analog: Analog,
    priceAfterBargaining: real,
    locationCoeff: real,
    priceAfterLocation: real,
    areaCoeff: real,
    priceAfterArea: real,
    repairCostDelta: real,
    repairCoeff: real,
    priceAfterRepair: real,
    floorCoeff: real,
    priceAfterFloor: real,
    bargainingAbsAdj: real,
    locationAbsAdj: real,
    areaAbsAdj: real,
    repairAbsAdj: real,
    floorAbsAdj: real,
    totalAbsAdjustment: real,
    weight: real)

  datatype CalculationResult = CalculationResult(
    subject: Subject,
    analogs: seq<AnalogResult>,
    sumM: real,
    weightedPricePerSqM: real,
    totalMarketValue: real,
    calculatedAt: int)

  /// The configuration used when none is stored (apartment.go, DefaultApartmentFormulaConfig).
  function DefaultConfig(): FormulaConfig {
    FormulaConfig(
      ScaleFormula(1.17, -0.05),
      [DistrictPrice("Центральный", 120000.0),
       DistrictPrice("Северный", 100000.0),
       DistrictPrice("Южный", 95000.0),
       DistrictPrice("Западный", 110000.0),
       DistrictPrice("Восточный", 90000.0),
       DistrictPrice("Пригород", 75000.0)],
      map["excellent" := 1.0, "good" := 0.67, "satisfactory" := 0.33, "unsatisfactory" := 0.0],
      [RepairClass("class_1", "Класс 1", 20.0),
       RepairClass("class_2", "Класс 2", 15.0),
       RepairClass("class_3", "Класс 3", 10.0),
       RepairClass("class_4", "Класс 4", 5.0),
       RepairClass("class_5", "Класс 5", 1.0)],
      map["first" := map["first" := 1.0, "middle" := 0.97, "last" := 0.98],
          "middle" := map["first" := 1.03, "middle" := 1.0, "last" := 1.01],
          "last" := map["first" := 1.02, "middle" := 0.99, "last" := 1.0]],
      "doc_formula",
      "multiplicative_direct")
  }
}
