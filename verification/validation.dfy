/**
  The arithmetic around the cohort model: the diesel van estimate
  (`estimate_van_consumption`), the backtest against recorded road-diesel
  consumption (`backtest`) and the forward projection with its change against
  2024 (`forecast`). Printing is not modelled; each operation returns the rows
  it would print.
*/
module Validation {
  import opened Wrappers
  import opened YearKeys
  import opened FleetProjector
  import opened ConsumptionCalculator

  // ---------------------------------------------------------------------------
  // Van estimate
  // ---------------------------------------------------------------------------

  /** The assumed size of the diesel van fleet before the first year. */
  const InitialVanFleet: real := 4000000.0

  /** The share of the van fleet still on the road after a year (8% scrapped). */
  const VanRetention: real := 0.92

  /** Miles a van drives in a year. */
  const VanAnnualMiles: real := 12000.0

  /** Fuel economy of a van, UK miles per gallon. */
  const VanMpg: real := 35.0

  /** One row of the van estimate: the fleet in millions and its litres in billions. */
  datatype VanRecord = VanRecord(year: int, vanFleetMillions: real, vanLitresBillions: real)

  /** `list(range(lo, hi))`. */
  function YearRange(lo: int, hi: int): (r: seq<int>)
    ensures |r| == if lo < hi then hi - lo else 0
    ensures forall i :: 0 <= i < |r| ==> r[i] == lo + i
  {
    if hi <= lo then [] else seq(hi - lo, i requires 0 <= i < hi - lo => lo + i)
  }

  /**
    One year of the van recurrence: a year with sales keeps 92% of the fleet and
    adds the year's sales, which moves the fleet 8% of the way towards the steady
    state sales / 0.08; a year without sales leaves it unchanged.
  */
  function VanStep(fleet: real, vanSales: Series, year: int): (f: real)
    ensures year !in vanSales ==> f == fleet
    ensures year in vanSales ==>
      f - vanSales[year] / (1.0 - VanRetention) == VanRetention * (fleet - vanSales[year] / (1.0 - VanRetention))
  {
    if year in vanSales then fleet * VanRetention + vanSales[year] else fleet
  }

  /** The van fleet after the years of `years`, taken in order. */
  function VanFleetAfter(vanSales: Series, years: seq<int>): (f: real)
    ensures years == [] ==> f == InitialVanFleet
    ensures (forall y :: y in vanSales ==> 0.0 <= vanSales[y]) ==> 0.0 < f
    decreases |years|
  {
    if years == [] then InitialVanFleet
    else VanStep(VanFleetAfter(vanSales, years[..|years| - 1]), vanSales, years[|years| - 1])
  }

  /** The row for a year with the given van fleet. */
  function VanRecordOf(year: int, fleet: real): (r: VanRecord)
    ensures r.year == year
    ensures r.vanFleetMillions * 1000000.0 == fleet
    ensures r.vanLitresBillions * 1000000000.0 * VanMpg == fleet * VanAnnualMiles * LitresPerGallon
  {
    var miles := fleet * VanAnnualMiles;
    var litres := miles / VanMpg * LitresPerGallon;
    VanRecord(year, fleet / 1000000.0, litres / 1000000000.0)
  }

  /** The rows of the van estimate, one per year of `years`, each with the fleet after that year. */
  function VanSeries(vanSales: Series, years: seq<int>): (s: seq<VanRecord>)
    ensures |s| == |years|
    ensures forall i :: 0 <= i < |years| ==> s[i].year == years[i]
  {
    seq(|years|, i requires 0 <= i < |years| => VanRecordOf(years[i], VanFleetAfter(vanSales, years[..i + 1])))
  }

  /**
    `estimate_van_consumption`: no van sales table gives no estimate; otherwise
    the fleet is carried from year to year and one row is emitted per year.
  */
  method EstimateVanConsumption(vanSales: Option<Series>, years: seq<int>) returns (r: Option<seq<VanRecord>>)
    ensures vanSales.None? ==> r.None?
    ensures vanSales.Some? ==> r == Some(VanSeries(vanSales.value, years))
  {
    if vanSales.None? {
      return None;
    }
    var sales := vanSales.value;
    var results: seq<VanRecord> := [];
    var vanFleet := InitialVanFleet;
    for i := 0 to |years|
      invariant vanFleet == VanFleetAfter(sales, years[..i])
      invariant |results| == i
      invariant forall j :: 0 <= j < i ==> results[j] == VanRecordOf(years[j], VanFleetAfter(sales, years[..j + 1]))
    {
      assert years[..i + 1][..i] == years[..i];
      var record;
      vanFleet, record := VanYear(vanFleet, sales, years[i]);
      assert vanFleet == VanFleetAfter(sales, years[..i + 1]);
      results := results + [record];
    }
    assert results == VanSeries(sales, years);
    return Some(results);
  }

  /** The body of the van loop: one year of the recurrence and the row it yields. */
  method VanYear(fleet: real, sales: Series, year: int) returns (next: real, record: VanRecord)
    ensures next == VanStep(fleet, sales, year)
    ensures record == VanRecordOf(year, next)
  {
    next := fleet;
    if year in sales {
      next := fleet * VanRetention + sales[year];
    }
    var miles := next * VanAnnualMiles;
    var litres := miles / VanMpg * LitresPerGallon;
    record := VanRecord(year, next / 1000000.0, litres / 1000000000.0);
  }

  /** Years without van sales leave the fleet at its initial size. */
  lemma {:induction false} VanFleetWithoutSales(vanSales: Series, years: seq<int>)
    requires forall i :: 0 <= i < |years| ==> years[i] !in vanSales
    ensures VanFleetAfter(vanSales, years) == InitialVanFleet
    decreases |years|
  {
    if years != [] {
      VanFleetWithoutSales(vanSales, years[..|years| - 1]);
    }
  }

  /** The larger of the initial fleet and the steady state 100/8 * cap of yearly sales of at most cap. */
  function VanFleetCeiling(cap: real): real {
    if InitialVanFleet >= cap / (1.0 - VanRetention) then InitialVanFleet else cap / (1.0 - VanRetention)
  }

  /**
    With yearly sales between 0 and cap the van fleet stays positive and never
    exceeds the larger of its initial size and the steady state cap / 0.08.
  */
  lemma {:induction false} VanFleetBounded(vanSales: Series, years: seq<int>, cap: real)
    requires forall y :: y in vanSales ==> 0.0 <= vanSales[y] <= cap
    ensures 0.0 < VanFleetAfter(vanSales, years) <= VanFleetCeiling(cap)
    decreases |years|
  {
    if years != [] {
      VanFleetBounded(vanSales, years[..|years| - 1], cap);
    }
  }

  // ---------------------------------------------------------------------------
  // Relative differences
  // ---------------------------------------------------------------------------

  /** `((x - base) / base) * 100`: how far x is from base, in percent of base. */
  function PercentDifference(x: real, base: real): (p: real)
    requires base != 0.0
    ensures x == base * (1.0 + p / 100.0)
  {
    var q := (x - base) / base;
    assert q * base == x - base;
    q * 100.0
  }

  /** Against a positive base the percentage is positive, zero or negative exactly as x is above, at or below it. */
  lemma PercentDifferenceSign(x: real, base: real)
    requires base > 0.0
    ensures PercentDifference(x, base) > 0.0 <==> x > base
    ensures PercentDifference(x, base) == 0.0 <==> x == base
    ensures PercentDifference(x, base) < 0.0 <==> x < base
  {
    var q := (x - base) / base;
    assert q * base == x - base;
  }

  // ---------------------------------------------------------------------------
  // Backtest
  // ---------------------------------------------------------------------------

  /** The share of all road diesel taken to be burnt by cars and vans. */
  const CarVanShare: real := 0.55

  /**
    The backtest error of a year: not available without a recorded figure; not
    a finite number when the recorded figure is zero (the division gives an
    infinity or NaN rather than raising); otherwise the prediction's difference
    from 55% of the recorded figure, in percent.
  */
  datatype RelativeError = NotAvailable | NonFinite | Percent(value: real)

  /** The relative error of a cars-and-vans prediction against a recorded road-diesel figure. */
  function BacktestError(predicted: real, actual: Option<real>): (e: RelativeError)
    ensures e.NotAvailable? <==> actual.None?
    ensures e.NonFinite? <==> actual == Some(0.0)
  {
    match actual
    case None => NotAvailable
    case Some(a) =>
      var carVanActual := a * CarVanShare;
      if carVanActual == 0.0 then NonFinite else Percent(PercentDifference(predicted, carVanActual))
  }

  /** A percentage error gives back the prediction: predicted == 0.55 * actual * (1 + e / 100). */
  lemma BacktestErrorInverse(predicted: real, actual: real)
    requires BacktestError(predicted, Some(actual)).Percent?
    ensures predicted == actual * CarVanShare * (1.0 + BacktestError(predicted, Some(actual)).value / 100.0)
  {
  }

  /** Against a positive recorded figure the error is positive exactly when the prediction exceeds 55% of it. */
  lemma BacktestErrorSign(predicted: real, actual: real)
    requires actual > 0.0
    ensures BacktestError(predicted, Some(actual)).Percent?
    ensures BacktestError(predicted, Some(actual)).value > 0.0 <==> predicted > actual * CarVanShare
    ensures BacktestError(predicted, Some(actual)).value == 0.0 <==> predicted == actual * CarVanShare
  {
    PercentDifferenceSign(predicted, actual * CarVanShare);
  }

  /** One line of the backtest table. */
  datatype BacktestRow = BacktestRow(
    year: int,
    carLitres: real,
    vanLitres: real,
    totalPredicted: real,
    actual: Option<real>,
    error: RelativeError)

  /** The van litres of the first van row of `year`, 0 when there is none. */
  function FirstVanLitres(records: seq<VanRecord>, year: int): (v: real)
    decreases |records|
  {
    if records == [] then 0.0
    else if records[0].year == year then records[0].vanLitresBillions
    else FirstVanLitres(records[1..], year)
  }

  /** The van litres a backtest year uses: 0 without a van estimate. */
  function VanLitresFor(van: Option<seq<VanRecord>>, year: int): (v: real)
    ensures van.None? ==> v == 0.0
  {
    match van
    case None => 0.0
    case Some(records) => FirstVanLitres(records, year)
  }

  /** The recorded road-diesel figure of a year, if the table exists and holds the year. */
  function ActualFor(fuel: Option<Series>, year: int): (a: Option<real>)
    ensures a.Some? <==> fuel.Some? && year in fuel.value
    ensures a.Some? ==> a.value == fuel.value[year]
  {
    if fuel.Some? && year in fuel.value then Some(fuel.value[year]) else None
  }

  /** The backtest line for one row of car consumption. */
  function BacktestRowOf(car: ConsumptionRecord, van: Option<seq<VanRecord>>, fuel: Option<Series>): (r: BacktestRow)
    ensures r.year == car.year && r.carLitres == car.carLitresBillions
    ensures r.totalPredicted == r.carLitres + r.vanLitres
    ensures van.None? ==> r.vanLitres == 0.0
    ensures r.error.NotAvailable? <==> r.actual.None?
    ensures r.actual.Some? <==> fuel.Some? && car.year in fuel.value
    ensures r.error == BacktestError(r.totalPredicted, r.actual)
    ensures r.actual == ActualFor(fuel, car.year)
    ensures r.vanLitres == VanLitresFor(van, car.year)
  {
    var vanLitres := VanLitresFor(van, car.year);
    var total := car.carLitresBillions + vanLitres;
    var actual := ActualFor(fuel, car.year);
    BacktestRow(car.year, car.carLitresBillions, vanLitres, total, actual, BacktestError(total, actual))
  }

  /** The van estimate of a backtest over [startYear, endYear]. */
  function BacktestVan(data: ExternalData, startYear: int, endYear: int): Option<seq<VanRecord>> {
    match data.vanSales
    case None => None
    case Some(v) => Some(VanSeries(v, YearRange(startYear, endYear + 1)))
  }

  /** The backtest table: one line per row of the car consumption series. */
  function BacktestTable(car: seq<ConsumptionRecord>, van: Option<seq<VanRecord>>, fuel: Option<Series>): (t: seq<BacktestRow>)
    ensures |t| == |car|
    ensures forall i :: 0 <= i < |car| ==> t[i].year == car[i].year && t[i].carLitres == car[i].carLitresBillions
  {
    seq(|car|, i requires 0 <= i < |car| => BacktestRowOf(car[i], van, fuel))
  }

  /**
    `backtest`: builds the fleet over [startYear, endYear], its default car
    consumption and the van estimate over the same years, and sets each year's
    cars-and-vans prediction against the recorded figure.
  */
  method Backtest(data: ExternalData, startYear: int, endYear: int) returns (r: Result<seq<BacktestRow>>)
    ensures data.carSales.None? ==> r == Failure("Car sales data required")
    ensures data.carSales.Some? ==> r == Success(BacktestTable(
      ConsumptionSeries(FleetSpec(data.carSales.value, startYear, endYear), 1.0),
      BacktestVan(data, startYear, endYear),
      data.fuelConsumption))
  {
    var fleet := BuildFleetModel(data, startYear, endYear);
    if fleet.Failure? {
      return Failure(fleet.error);
    }
    var car := CalculateConsumption(fleet.value, 1.0);
    var van := EstimateVanConsumption(data.vanSales, YearRange(startYear, endYear + 1));
    assert van == BacktestVan(data, startYear, endYear);
    var table := CompareYears(car, van, data.fuelConsumption);
    return Success(table);
  }

  /** The loop of `backtest` over the car rows: each year's prediction set against the recorded figure. */
  method CompareYears(car: seq<ConsumptionRecord>, van: Option<seq<VanRecord>>, fuel: Option<Series>)
    returns (table: seq<BacktestRow>)
    ensures table == BacktestTable(car, van, fuel)
  {
    table := [];
    for i := 0 to |car|
      invariant |table| == i
      invariant forall j :: 0 <= j < i ==> table[j] == BacktestRowOf(car[j], van, fuel)
    {
      var year := car[i].year;
      var carLitres := car[i].carLitresBillions;
      var vanLitres := 0.0;
      if van.Some? {
        vanLitres := FirstVanLitres(van.value, year);
      }
      var total := carLitres + vanLitres;
      var actual: Option<real> := None;
      if fuel.Some? && year in fuel.value {
        actual := Some(fuel.value[year]);
      }
      table := table + [BacktestRow(year, carLitres, vanLitres, total, actual, BacktestError(total, actual))];
    }
  }

  /** A year no van row carries contributes no van litres. */
  lemma {:induction false} FirstVanLitresAbsent(records: seq<VanRecord>, year: int)
    requires forall j :: 0 <= j < |records| ==> records[j].year != year
    ensures FirstVanLitres(records, year) == 0.0
    decreases |records|
  {
    if records != [] {
      FirstVanLitresAbsent(records[1..], year);
    }
  }

  /** The first van row carrying a year supplies that year's van litres. */
  lemma {:induction false} FirstVanLitresAt(records: seq<VanRecord>, i: int, year: int)
    requires 0 <= i < |records| && records[i].year == year
    requires forall j :: 0 <= j < i ==> records[j].year != year
    ensures FirstVanLitres(records, year) == records[i].vanLitresBillions
    decreases i
  {
    if i > 0 {
      FirstVanLitresAt(records[1..], i - 1, year);
    }
  }

  /** Years of an ascending series lie at or above lo + i when all of them are at least lo. */
  lemma {:induction false} AscendingFloor(s: seq<ConsumptionRecord>, lo: int, i: int)
    requires Ascending(s) && 0 <= i < |s|
    requires forall k :: 0 <= k < |s| ==> lo <= s[k].year
    ensures s[i].year >= lo + i
    decreases i
  {
    if i > 0 {
      AscendingFloor(s, lo, i - 1);
    }
  }

  /**
    An ascending series whose years are exactly the keys of an interval [lo, hi]
    holds the years lo, lo + 1, ..., hi in that order.
  */
  lemma IntervalYears(s: seq<ConsumptionRecord>, keys: set<int>, lo: int, hi: int)
    requires lo <= hi
    requires forall y :: y in keys <==> lo <= y <= hi
    requires Ascending(s)
    requires forall k :: 0 <= k < |s| ==> s[k].year in keys
    requires forall y :: y in keys ==> exists k :: 0 <= k < |s| && s[k].year == y
    ensures |s| == hi - lo + 1
    ensures forall i :: 0 <= i < |s| ==> s[i].year == lo + i
  {
    assert hi in keys;
    var last :| 0 <= last < |s| && s[last].year == hi;
    var n := |s| - 1;
    IntervalPrefix(s, keys, lo, hi, n);
    assert s[n].year in keys;
    assert last == n;
  }

  /** Under the conditions of IntervalYears, the first i + 1 years are lo..lo + i. */
  lemma {:induction false} IntervalPrefix(s: seq<ConsumptionRecord>, keys: set<int>, lo: int, hi: int, i: int)
    requires forall y :: y in keys <==> lo <= y <= hi
    requires Ascending(s)
    requires forall k :: 0 <= k < |s| ==> s[k].year in keys
    requires forall y :: y in keys ==> exists k :: 0 <= k < |s| && s[k].year == y
    requires 0 <= i < |s|
    ensures forall j :: 0 <= j <= i ==> s[j].year == lo + j
    decreases i
  {
    if i > 0 {
      IntervalPrefix(s, keys, lo, hi, i - 1);
    }
    AscendingFloor(s, lo, i);
    assert s[i].year in keys;
    assert lo + i in keys;
    var k :| 0 <= k < |s| && s[k].year == lo + i;
  }

  /** The car consumption series of a fleet over [lo, hi] lists the years lo..hi in order. */
  lemma FleetSeriesYears(sales: Series, lo: int, hi: int, adjustment: real)
    requires lo <= hi
    ensures |ConsumptionSeries(FleetSpec(sales, lo, hi), adjustment)| == hi - lo + 1
    ensures forall i :: 0 <= i < hi - lo + 1 ==> ConsumptionSeries(FleetSpec(sales, lo, hi), adjustment)[i].year == lo + i
  {
    var fleet := FleetSpec(sales, lo, hi);
    ConsumptionSeriesShape(fleet, adjustment);
    IntervalYears(ConsumptionSeries(fleet, adjustment), fleet.Keys, lo, hi);
  }

  /** The van litres a backtest line for year startYear + i carries. */
  function VanLitresOfYear(vanSales: Option<Series>, startYear: int, i: nat): real {
    match vanSales
    case None => 0.0
    case Some(v) => VanRecordOf(startYear + i, VanFleetAfter(v, YearRange(startYear, startYear + i + 1))).vanLitresBillions
  }

  /**
    Over car rows for the years startYear..endYear, each backtest line is for
    year startYear + i, carries the van litres of the same year of the van
    estimate (0 without van sales), and has an error exactly when the
    consumption table records that year.
  */
  lemma {:induction false} TableLines(car: seq<ConsumptionRecord>, data: ExternalData, startYear: int, endYear: int)
    requires |car| == endYear - startYear + 1
    requires forall i :: 0 <= i < |car| ==> car[i].year == startYear + i
    ensures |BacktestTable(car, BacktestVan(data, startYear, endYear), data.fuelConsumption)| == |car|
    ensures forall i :: 0 <= i < |car| ==>
      var line := BacktestTable(car, BacktestVan(data, startYear, endYear), data.fuelConsumption)[i];
      line.year == startYear + i &&
      line.vanLitres == VanLitresOfYear(data.vanSales, startYear, i) &&
      line.totalPredicted == car[i].carLitresBillions + line.vanLitres &&
      (line.error.NotAvailable? <==> ActualFor(data.fuelConsumption, startYear + i).None?)
  {
    forall i | 0 <= i < |car| {
      LineOfTable(car, data, startYear, endYear, i);
    }
  }

  /** Line i of the backtest table is built from car row i and the van estimate of year startYear + i. */
  lemma LineOfTable(car: seq<ConsumptionRecord>, data: ExternalData, startYear: int, endYear: int, i: int)
    requires |car| == endYear - startYear + 1 && 0 <= i < |car|
    requires car[i].year == startYear + i
    ensures var line := BacktestRowOf(car[i], BacktestVan(data, startYear, endYear), data.fuelConsumption);
      line.year == startYear + i &&
      line.vanLitres == VanLitresOfYear(data.vanSales, startYear, i) &&
      line.totalPredicted == car[i].carLitresBillions + line.vanLitres &&
      (line.error.NotAvailable? <==> ActualFor(data.fuelConsumption, startYear + i).None?)
  {
    if data.vanSales.Some? {
      VanLineAt(data.vanSales.value, startYear, endYear, i);
    }
  }

  /** Row i of the van estimate over [startYear, endYear] is the first row of year startYear + i. */
  lemma VanLineAt(v: Series, startYear: int, endYear: int, i: int)
    requires 0 <= i <= endYear - startYear
    ensures FirstVanLitres(VanSeries(v, YearRange(startYear, endYear + 1)), startYear + i)
         == VanLitresOfYear(Some(v), startYear, i)
  {
    var years := YearRange(startYear, endYear + 1);
    var records := VanSeries(v, years);
    assert years[..i + 1] == YearRange(startYear, startYear + i + 1);
    var record := VanRecordOf(startYear + i, VanFleetAfter(v, YearRange(startYear, startYear + i + 1)));
    assert records[i] == record;
    FirstVanLitresAt(records, i, startYear + i);
    assert VanLitresOfYear(Some(v), startYear, i) == record.vanLitresBillions;
  }

  /**
    The backtest over [startYear, endYear] has one line per year, in order; each
    line carries the van litres of the same year of the van estimate (0 without
    van sales), and has an error exactly when the consumption table records
    that year.
  */
  lemma BacktestLines(data: ExternalData, startYear: int, endYear: int)
    requires data.carSales.Some? && startYear <= endYear
    ensures var table := BacktestTable(ConsumptionSeries(FleetSpec(data.carSales.value, startYear, endYear), 1.0),
                                       BacktestVan(data, startYear, endYear), data.fuelConsumption);
      |table| == endYear - startYear + 1 &&
      forall i :: 0 <= i < |table| ==>
        table[i].year == startYear + i &&
        table[i].vanLitres == VanLitresOfYear(data.vanSales, startYear, i) &&
        (table[i].error.NotAvailable? <==> ActualFor(data.fuelConsumption, startYear + i).None?)
  {
    FleetSeriesYears(data.carSales.value, startYear, endYear, 1.0);
    TableLines(ConsumptionSeries(FleetSpec(data.carSales.value, startYear, endYear), 1.0), data, startYear, endYear);
  }

  // ---------------------------------------------------------------------------
  // Forecast
  // ---------------------------------------------------------------------------

  /** The first year of the forecast fleet. */
  const ForecastBaseYear: int := 2020

  /** The year the forecast compares against. */
  const ComparisonYear: int := 2024

  /** The mileage factor of the declining-use variant. */
  const DecliningAdjustment: real := 0.98

  /** What `forecast` computes: the default series, the declining-use series and the change column. */
  datatype ForecastResult = ForecastResult(
    consumption: seq<ConsumptionRecord>,
    declining: seq<ConsumptionRecord>,
    changes: seq<Option<real>>)

  /** The comparison litres after the first n rows: those of the last 2024 row so far, if any. */
  function BaseThrough(rows: seq<ConsumptionRecord>, n: nat): Option<real>
    requires n <= |rows|
  {
    if n == 0 then None
    else if rows[n - 1].year == ComparisonYear then Some(rows[n - 1].carLitresBillions)
    else BaseThrough(rows, n - 1)
  }

  /**
    The change shown for a row: its litres against the comparison litres in
    percent, only once a non-zero comparison figure exists and from 2024 on.
  */
  function PercentChange(litres: real, base: Option<real>, year: int): (p: Option<real>)
    ensures p.Some? <==> base.Some? && base.value != 0.0 && year >= ComparisonYear
  {
    if base.Some? && base.value != 0.0 && year >= ComparisonYear then Some(PercentDifference(litres, base.value))
    else None
  }

  /** The change column of the forecast table. */
  function Changes(rows: seq<ConsumptionRecord>): (c: seq<Option<real>>)
    ensures |c| == |rows|
    ensures forall i :: 0 <= i < |rows| && rows[i].year < ComparisonYear ==> c[i].None?
  {
    seq(|rows|, i requires 0 <= i < |rows| => PercentChange(rows[i].carLitresBillions, BaseThrough(rows, i + 1), rows[i].year))
  }

  /**
    `forecast`: the fleet from 2020 to the target year, its default consumption,
    the variant with 2% less mileage, and the change of each year against 2024.
  */
  method Forecast(data: ExternalData, targetYear: int) returns (r: Result<ForecastResult>)
    ensures data.carSales.None? ==> r == Failure("Car sales data required")
    ensures data.carSales.Some? ==> r.Success?
    ensures data.carSales.Some? ==>
      r.value.consumption == ConsumptionSeries(FleetSpec(data.carSales.value, ForecastBaseYear, targetYear), 1.0)
    ensures data.carSales.Some? ==> r.value.declining == ScaleSeries(r.value.consumption, DecliningAdjustment)
    ensures data.carSales.Some? ==> r.value.changes == Changes(r.value.consumption)
  {
    var fleet := BuildFleetModel(data, ForecastBaseYear, targetYear);
    if fleet.Failure? {
      return Failure(fleet.error);
    }
    var consumption := CalculateConsumption(fleet.value, 1.0);
    var declining := CalculateConsumption(fleet.value, DecliningAdjustment);
    ConsumptionLinear(fleet.value, DecliningAdjustment);
    var changes := ChangeColumn(consumption);
    return Success(ForecastResult(consumption, declining, changes));
  }

  /** The change column of `forecast`, carrying the 2024 litres down the rows once they are seen. */
  method ChangeColumn(consumption: seq<ConsumptionRecord>) returns (changes: seq<Option<real>>)
    ensures changes == Changes(consumption)
  {
    changes := [];
    var baseLitres: Option<real> := None;
    for i := 0 to |consumption|
      invariant baseLitres == BaseThrough(consumption, i)
      invariant |changes| == i
      invariant forall j :: 0 <= j < i ==> changes[j] == Changes(consumption)[j]
    {
      var year := consumption[i].year;
      var litres := consumption[i].carLitresBillions;
      if year == ComparisonYear {
        baseLitres := Some(litres);
      }
      var change: Option<real> := None;
      if baseLitres.Some? && baseLitres.value != 0.0 && year >= ComparisonYear {
        change := Some(PercentDifference(litres, baseLitres.value));
      }
      assert change == Changes(consumption)[i];
      changes := changes + [change];
    }
  }

  /** No comparison litres exist after the first n rows exactly when none of them is the 2024 row. */
  lemma {:induction false} BaseThroughNone(rows: seq<ConsumptionRecord>, n: nat)
    requires n <= |rows|
    ensures BaseThrough(rows, n).None? <==> forall i :: 0 <= i < n ==> rows[i].year != ComparisonYear
    decreases n
  {
    if n > 0 {
      BaseThroughNone(rows, n - 1);
    }
  }

  /** In an ascending series, once the 2024 row is passed the comparison litres are that row's. */
  lemma {:induction false} BaseAfterComparison(rows: seq<ConsumptionRecord>, j: int, n: nat)
    requires Ascending(rows)
    requires 0 <= j < n <= |rows| && rows[j].year == ComparisonYear
    ensures BaseThrough(rows, n) == Some(rows[j].carLitresBillions)
    decreases n
  {
    if n - 1 > j {
      assert rows[j].year < rows[n - 1].year;
      BaseAfterComparison(rows, j, n - 1);
    }
  }

  /**
    In an ascending series with a 2024 row of non-zero litres, every row from
    that one on shows its litres against the 2024 litres, in percent.
  */
  lemma ChangeAgainstComparison(rows: seq<ConsumptionRecord>, j: int, i: int)
    requires Ascending(rows)
    requires 0 <= j <= i < |rows| && rows[j].year == ComparisonYear && rows[j].carLitresBillions != 0.0
    ensures Changes(rows)[i] == Some(PercentDifference(rows[i].carLitresBillions, rows[j].carLitresBillions))
  {
    BaseAfterComparison(rows, j, i + 1);
    if j < i {
      assert rows[j].year < rows[i].year;
    }
    assert rows[i].year >= ComparisonYear;
    assert Changes(rows)[i] == PercentChange(rows[i].carLitresBillions, BaseThrough(rows, i + 1), rows[i].year);
  }

  /**
    A forecast to 2024 or later has its 2024 row fifth, and every year from 2024
    on is compared with it whenever its litres are non-zero.
  */
  lemma ForecastAgainst2024(sales: Series, targetYear: int)
    requires targetYear >= ComparisonYear
    ensures var rows := ConsumptionSeries(FleetSpec(sales, ForecastBaseYear, targetYear), 1.0);
      |rows| == targetYear - ForecastBaseYear + 1 &&
      rows[4].year == ComparisonYear &&
      (rows[4].carLitresBillions != 0.0 ==>
        forall i :: 4 <= i < |rows| ==>
          Changes(rows)[i] == Some(PercentDifference(rows[i].carLitresBillions, rows[4].carLitresBillions)))
  {
    var rows := ConsumptionSeries(FleetSpec(sales, ForecastBaseYear, targetYear), 1.0);
    FleetSeriesYears(sales, ForecastBaseYear, targetYear, 1.0);
    ConsumptionSeriesShape(FleetSpec(sales, ForecastBaseYear, targetYear), 1.0);
    if rows[4].carLitresBillions != 0.0 {
      forall i | 4 <= i < |rows|
        ensures Changes(rows)[i] == Some(PercentDifference(rows[i].carLitresBillions, rows[4].carLitresBillions))
      {
        ChangeAgainstComparison(rows, 4, i);
      }
    }
  }
}
