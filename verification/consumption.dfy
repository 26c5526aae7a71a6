/**
  The consumption calculator (`calculate_consumption`): for every year of a fleet
  model, in ascending year order, the number of vehicles, the miles they drive and
  the litres of diesel they burn, with a uniform multiplicative mileage adjustment.

  The specification is layered so that the arithmetic of one cohort stays apart
  from the bookkeeping: CohortTotals is one cohort's contribution, Sum adds up a
  map of contributions, YearRows holds the row of every year, and InOrder lists
  a map of rows by ascending year.
*/
module ConsumptionCalculator {
  import opened CurveTables
  import opened YearKeys
  import opened FleetProjector

  /** Litres in one UK gallon. */
  const LitresPerGallon: real := 4.546

  /** Running totals over the cohorts of one year. */
  datatype Totals = Totals(vehicles: int, miles: real, litres: real)

  /** One output row: the year's fleet in millions, miles and litres in billions. */
  datatype ConsumptionRecord = ConsumptionRecord(
    year: int,
    fleetSizeMillions: real,
    totalMilesBillions: real,
    carLitresBillions: real)

  function Add(a: Totals, b: Totals): Totals {
    Totals(a.vehicles + b.vehicles, a.miles + b.miles, a.litres + b.litres)
  }

  /**
    The contribution of one cohort of `count` vehicles of age year - regYear: each
    drives the table mileage times the adjustment, at the table fuel economy.
  */
  function CohortTotals(year: int, regYear: int, count: int, adjustment: real): (t: Totals)
    ensures t.vehicles == count
    ensures t.litres * Mpg(year - regYear) == t.miles * LitresPerGallon
  {
    Usage(count, Mileage(year - regYear), Mpg(year - regYear), adjustment)
  }

  /**
    The totals of `count` vehicles that each drive `mileage` times the adjustment
    at `mpg` miles per gallon: the gallons they burn, in litres, are miles / mpg.
  */
  function Usage(count: int, mileage: real, mpg: real, adjustment: real): (t: Totals)
    requires mpg != 0.0
    ensures t.vehicles == count
    ensures t.litres * mpg == t.miles * LitresPerGallon
  {
    var miles := count as real * (mileage * adjustment);
    Totals(count, miles, miles / mpg * LitresPerGallon)
  }

  /** The contribution of every cohort of a year, keyed by registration year. */
  function Contributions(year: int, cohorts: map<int, int>, adjustment: real): (parts: map<int, Totals>)
    ensures parts.Keys == cohorts.Keys
    ensures forall r :: r in cohorts ==> parts[r] == CohortTotals(year, r, cohorts[r], adjustment)
  {
    map r | r in cohorts :: CohortTotals(year, r, cohorts[r], adjustment)
  }

  /** The sum of the totals in `parts` over `keys`, smallest key first. */
  function Sum(parts: map<int, Totals>, keys: set<int>): (t: Totals)
    requires keys <= parts.Keys
    ensures keys == {} ==> t == Totals(0, 0.0, 0.0)
    decreases keys
  {
    if keys == {} then Totals(0, 0.0, 0.0)
    else
      var r := MinKey(keys);
      Add(parts[r], Sum(parts, keys - {r}))
  }

  /** The totals of one year: the sum over all of its cohorts. */
  function YearTotals(year: int, cohorts: map<int, int>, adjustment: real): (t: Totals)
    ensures cohorts == map[] ==> t == Totals(0, 0.0, 0.0)
  {
    Sum(Contributions(year, cohorts, adjustment), cohorts.Keys)
  }

  /** The row `calculate_consumption` emits for a year with the given totals. */
  function RecordOf(year: int, t: Totals): (r: ConsumptionRecord)
    ensures r.year == year
    ensures r.fleetSizeMillions * 1000000.0 == t.vehicles as real
    ensures r.totalMilesBillions * 1000000000.0 == t.miles
    ensures r.carLitresBillions * 1000000000.0 == t.litres
  {
    ConsumptionRecord(year, t.vehicles as real / 1000000.0, t.miles / 1000000000.0, t.litres / 1000000000.0)
  }

  /** The row of every year of the fleet model, keyed by year. */
  function YearRows(fleet: Fleet, adjustment: real): (rows: map<int, ConsumptionRecord>)
    ensures rows.Keys == fleet.Keys
    ensures forall y :: y in fleet ==> rows[y] == RecordOf(y, YearTotals(y, fleet[y], adjustment))
  {
    map y | y in fleet :: RecordOf(y, YearTotals(y, fleet[y], adjustment))
  }

  /** The rows for the years in `keys`, smallest year first. */
  function InOrder(rows: map<int, ConsumptionRecord>, keys: set<int>): seq<ConsumptionRecord>
    requires keys <= rows.Keys
    decreases keys
  {
    if keys == {} then []
    else
      var y := MinKey(keys);
      [rows[y]] + InOrder(rows, keys - {y})
  }

  /** The whole output of `calculate_consumption`: one row per year of the fleet model. */
  function ConsumptionSeries(fleet: Fleet, adjustment: real): (s: seq<ConsumptionRecord>)
    ensures |s| == |fleet.Keys|
    ensures Ascending(s)
  {
    InOrderShape(YearRows(fleet, adjustment), fleet.Keys);
    InOrder(YearRows(fleet, adjustment), fleet.Keys)
  }

  /** The sum does not depend on the order in which cohorts are visited: any cohort can be taken first. */
  lemma {:induction false} SumPick(parts: map<int, Totals>, keys: set<int>, k: int)
    requires keys <= parts.Keys && k in keys
    ensures Sum(parts, keys) == Add(parts[k], Sum(parts, keys - {k}))
    decreases keys
  {
    var m := MinKey(keys);
    if k != m {
      SumPick(parts, keys - {m}, k);
      assert keys - {m} - {k} == keys - {k} - {m};
      assert m in keys - {k};
      var m2 := MinKey(keys - {k});
      assert m2 in keys;
      assert m <= m2 <= m;
    }
  }

  /**
    `calculate_consumption`: visits the fleet years in ascending order and emits
    one row for each.
  */
  method CalculateConsumption(fleet: Fleet, mileageAdjustment: real) returns (results: seq<ConsumptionRecord>)
    ensures results == ConsumptionSeries(fleet, mileageAdjustment)
  {
    ghost var rows := YearRows(fleet, mileageAdjustment);
    results := [];
    var remaining := fleet.Keys;
    while remaining != {}
      invariant remaining <= fleet.Keys
      invariant results + InOrder(rows, remaining) == ConsumptionSeries(fleet, mileageAdjustment)
      decreases remaining
    {
      var year := MinKey(remaining);
      var row := AggregateYear(year, fleet[year], mileageAdjustment);
      assert row == rows[year];
      ghost var rest := InOrder(rows, remaining - {year});
      assert InOrder(rows, remaining) == [row] + rest;
      assert results + ([row] + rest) == (results + [row]) + rest;
      results := results + [row];
      remaining := remaining - {year};
    }
  }

  /**
    The loop body of `calculate_consumption` for one year: running totals of
    vehicles, miles and litres over the year's cohorts, in whatever order the
    cohorts come.
  */
  method AggregateYear(year: int, cohorts: map<int, int>, mileageAdjustment: real) returns (row: ConsumptionRecord)
    ensures row == RecordOf(year, YearTotals(year, cohorts, mileageAdjustment))
  {
    var totalVehicles := 0;
    var totalMiles := 0.0;
    var totalLitres := 0.0;
    ghost var parts := Contributions(year, cohorts, mileageAdjustment);
    var pending := cohorts.Keys;
    while pending != {}
      invariant pending <= cohorts.Keys
      invariant Add(Totals(totalVehicles, totalMiles, totalLitres), Sum(parts, pending))
        == YearTotals(year, cohorts, mileageAdjustment)
      decreases pending
    {
      assert (forall j :: j !in pending) ==> pending == {};
      var regYear :| regYear in pending;
      var count := cohorts[regYear];
      var miles, litres := CohortUsage(year, regYear, count, mileageAdjustment);
      SumPick(parts, pending, regYear);
      totalVehicles := totalVehicles + count;
      totalMiles := totalMiles + miles;
      totalLitres := totalLitres + litres;
      pending := pending - {regYear};
    }
    assert Sum(parts, pending) == Totals(0, 0.0, 0.0);
    row := ConsumptionRecord(year, totalVehicles as real / 1000000.0,
      totalMiles / 1000000000.0, totalLitres / 1000000000.0);
    RecordFromTotals(year, row, YearTotals(year, cohorts, mileageAdjustment), totalVehicles, totalMiles, totalLitres);
  }

  /** The row built from a year's running totals is the row of its totals. */
  lemma RecordFromTotals(year: int, row: ConsumptionRecord, t: Totals, vehicles: int, miles: real, litres: real)
    requires t == Add(Totals(vehicles, miles, litres), Totals(0, 0.0, 0.0))
    requires row == ConsumptionRecord(year, vehicles as real / 1000000.0, miles / 1000000000.0, litres / 1000000000.0)
    ensures row == RecordOf(year, t)
  {
  }

  /** The body of the inner loop for one cohort: the miles it drives and the litres it burns. */
  method CohortUsage(year: int, regYear: int, count: int, mileageAdjustment: real) returns (miles: real, litres: real)
    ensures Totals(count, miles, litres) == CohortTotals(year, regYear, count, mileageAdjustment)
  {
    var age := year - regYear;
    var annualMiles := Mileage(age) * mileageAdjustment;
    var mpg := Mpg(age);
    miles := count as real * annualMiles;
    litres := miles / mpg * LitresPerGallon;
    assert Totals(count, miles, litres) == Usage(count, Mileage(age), mpg, mileageAdjustment);
  }

  /** Years strictly increase along a series of rows. */
  ghost predicate Ascending(s: seq<ConsumptionRecord>) {
    forall i, j :: 0 <= i < j < |s| ==> s[i].year < s[j].year
  }

  /**
    Listing rows keyed by their own year gives one row per key, in ascending
    year order, each the row stored under its year.
  */
  lemma {:induction false} InOrderShape(rows: map<int, ConsumptionRecord>, keys: set<int>)
    requires keys <= rows.Keys
    requires forall y :: y in keys ==> rows[y].year == y
    ensures |InOrder(rows, keys)| == |keys|
    ensures Ascending(InOrder(rows, keys))
    ensures forall i :: 0 <= i < |InOrder(rows, keys)| ==>
      InOrder(rows, keys)[i].year in keys && InOrder(rows, keys)[i] == rows[InOrder(rows, keys)[i].year]
    ensures forall y :: y in keys ==> exists i :: 0 <= i < |InOrder(rows, keys)| && InOrder(rows, keys)[i].year == y
    decreases keys
  {
    if keys != {} {
      var y := MinKey(keys);
      var rest := keys - {y};
      InOrderShape(rows, rest);
      assert InOrder(rows, keys) == [rows[y]] + InOrder(rows, rest);
      ConsShape(rows, keys, y, InOrder(rows, rest));
    }
  }

  /** Putting the row of the smallest key in front of a listing of the other keys lists all keys. */
  lemma ConsShape(rows: map<int, ConsumptionRecord>, keys: set<int>, y: int, t: seq<ConsumptionRecord>)
    requires keys <= rows.Keys && y in keys && rows[y].year == y
    requires forall z :: z in keys ==> y <= z
    requires |t| == |keys - {y}| && Ascending(t)
    requires forall i :: 0 <= i < |t| ==> t[i].year in keys - {y} && t[i] == rows[t[i].year]
    requires forall z :: z in keys - {y} ==> exists i :: 0 <= i < |t| && t[i].year == z
    ensures |[rows[y]] + t| == |keys|
    ensures Ascending([rows[y]] + t)
    ensures forall i :: 0 <= i < |[rows[y]] + t| ==>
      ([rows[y]] + t)[i].year in keys && ([rows[y]] + t)[i] == rows[([rows[y]] + t)[i].year]
    ensures forall z :: z in keys ==> exists i :: 0 <= i < |[rows[y]] + t| && ([rows[y]] + t)[i].year == z
  {
    var rest := keys - {y};
    var s := [rows[y]] + t;
    assert |keys| == |rest| + 1;
    forall i | 0 < i < |s|
      ensures s[i] == t[i - 1]
    {
    }
    forall i, j | 0 <= i < j < |s|
      ensures s[i].year < s[j].year
    {
      if i == 0 {
        assert s[j].year in rest;
      } else {
        assert s[i] == t[i - 1] && s[j] == t[j - 1];
      }
    }
    forall z | z in keys
      ensures exists i :: 0 <= i < |s| && s[i].year == z
    {
      if z == y {
        assert s[0].year == z;
      } else {
        assert z in rest;
        var k :| 0 <= k < |t| && t[k].year == z;
        assert s[k + 1].year == z;
      }
    }
  }

  /**
    The output of `calculate_consumption` holds exactly one row per fleet year,
    in ascending year order, and the row of each year carries that year's cohort
    totals.
  */
  lemma ConsumptionSeriesShape(fleet: Fleet, adjustment: real)
    ensures |ConsumptionSeries(fleet, adjustment)| == |fleet.Keys|
    ensures Ascending(ConsumptionSeries(fleet, adjustment))
    ensures forall i :: 0 <= i < |ConsumptionSeries(fleet, adjustment)| ==>
      var row := ConsumptionSeries(fleet, adjustment)[i];
      row.year in fleet && row == RecordOf(row.year, YearTotals(row.year, fleet[row.year], adjustment))
    ensures forall y :: y in fleet ==>
      exists i :: 0 <= i < |ConsumptionSeries(fleet, adjustment)| && ConsumptionSeries(fleet, adjustment)[i].year == y
  {
    var rows := YearRows(fleet, adjustment);
    InOrderShape(rows, fleet.Keys);
  }

  /** `a` has the vehicles of `b` and k times its miles and litres. */
  predicate ScaledBy(a: Totals, b: Totals, k: real) {
    a.vehicles == b.vehicles && a.miles == k * b.miles && a.litres == k * b.litres
  }

  /** c * (m * k) is k times c * (m * 1.0). */
  lemma MilesScale(c: real, m: real, k: real)
    ensures c * (m * k) == k * (c * (m * 1.0))
  {
  }

  /** Litres from k times the miles are k times the litres. */
  lemma LitresScale(x: real, g: real, k: real)
    requires g != 0.0
    ensures (k * x) / g * LitresPerGallon == k * (x / g * LitresPerGallon)
  {
  }

  /** Scaling one cohort's mileage by k scales its miles and litres by k and leaves its count alone. */
  lemma CohortLinear(year: int, regYear: int, count: int, k: real)
    ensures ScaledBy(CohortTotals(year, regYear, count, k), CohortTotals(year, regYear, count, 1.0), k)
  {
    UsageLinear(count, Mileage(year - regYear), Mpg(year - regYear), k);
  }

  /** The cohort arithmetic with the table values abstracted: miles and litres scale with the adjustment. */
  lemma UsageLinear(count: int, m: real, g: real, k: real)
    requires g != 0.0
    ensures ScaledBy(Usage(count, m, g, k), Usage(count, m, g, 1.0), k)
  {
    MilesScale(count as real, m, k);
    LitresScale(count as real * (m * 1.0), g, k);
  }

  /** A sum of parts, each scaled by k from the matching part of `unit`, is the sum of `unit` scaled by k. */
  lemma {:induction false} SumScaled(parts: map<int, Totals>, unit: map<int, Totals>, keys: set<int>, k: real)
    requires keys <= parts.Keys && keys <= unit.Keys
    requires forall r :: r in keys ==> ScaledBy(parts[r], unit[r], k)
    ensures ScaledBy(Sum(parts, keys), Sum(unit, keys), k)
    decreases keys
  {
    if keys != {} {
      var r := MinKey(keys);
      SumScaled(parts, unit, keys - {r}, k);
      var s1 := Sum(unit, keys - {r});
      assert k * unit[r].miles + k * s1.miles == k * (unit[r].miles + s1.miles);
      assert k * unit[r].litres + k * s1.litres == k * (unit[r].litres + s1.litres);
    }
  }

  /**
    The mileage adjustment is uniform and multiplicative: with factor k a year's
    vehicle count is unchanged and its miles and litres are k times those with
    factor 1.0.
  */
  lemma YearLinear(year: int, cohorts: map<int, int>, k: real)
    ensures ScaledBy(YearTotals(year, cohorts, k), YearTotals(year, cohorts, 1.0), k)
  {
    var parts := Contributions(year, cohorts, k);
    var unit := Contributions(year, cohorts, 1.0);
    forall r | r in cohorts.Keys
      ensures ScaledBy(parts[r], unit[r], k)
    {
      CohortLinear(year, r, cohorts[r], k);
    }
    SumScaled(parts, unit, cohorts.Keys, k);
  }

  /** A row with its miles and litres scaled by k. */
  function ScaleRow(row: ConsumptionRecord, k: real): ConsumptionRecord {
    row.(totalMilesBillions := k * row.totalMilesBillions, carLitresBillions := k * row.carLitresBillions)
  }

  /** Every row of a series with its miles and litres scaled by k. */
  function ScaleSeries(s: seq<ConsumptionRecord>, k: real): (r: seq<ConsumptionRecord>)
    ensures |r| == |s|
    ensures forall i :: 0 <= i < |s| ==> r[i] == ScaleRow(s[i], k)
  {
    if s == [] then [] else [ScaleRow(s[0], k)] + ScaleSeries(s[1..], k)
  }

  /** Rows of scaled totals are scaled rows. */
  lemma RecordScaled(year: int, a: Totals, u: Totals, k: real)
    requires ScaledBy(a, u, k)
    ensures RecordOf(year, a) == ScaleRow(RecordOf(year, u), k)
  {
    assert a.miles / 1000000000.0 == k * (u.miles / 1000000000.0);
    assert a.litres / 1000000000.0 == k * (u.litres / 1000000000.0);
  }

  /** Listing rows that are scaled copies of other rows lists the scaled copies. */
  lemma {:induction false} InOrderScaled(scaled: map<int, ConsumptionRecord>, rows: map<int, ConsumptionRecord>,
                                         keys: set<int>, k: real)
    requires keys <= scaled.Keys && keys <= rows.Keys
    requires forall y :: y in keys ==> scaled[y] == ScaleRow(rows[y], k)
    ensures InOrder(scaled, keys) == ScaleSeries(InOrder(rows, keys), k)
    decreases keys
  {
    if keys != {} {
      var y := MinKey(keys);
      InOrderScaled(scaled, rows, keys - {y}, k);
      var u := InOrder(rows, keys);
      assert u == [rows[y]] + InOrder(rows, keys - {y});
      assert u[1..] == InOrder(rows, keys - {y});
    }
  }

  /**
    `calculate_consumption(fleet, k)` is the default series (factor 1.0) with
    every row's miles and litres scaled by k; years and fleet sizes do not
    depend on k.
  */
  lemma ConsumptionLinear(fleet: Fleet, k: real)
    ensures ConsumptionSeries(fleet, k) == ScaleSeries(ConsumptionSeries(fleet, 1.0), k)
  {
    var scaled := YearRows(fleet, k);
    var rows := YearRows(fleet, 1.0);
    forall y | y in fleet.Keys
      ensures scaled[y] == ScaleRow(rows[y], k)
    {
      YearLinear(y, fleet[y], k);
      RecordScaled(y, YearTotals(y, fleet[y], k), YearTotals(y, fleet[y], 1.0), k);
    }
    InOrderScaled(scaled, rows, fleet.Keys, k);
  }

  /** Totals whose miles are non-negative and whose litres lie between the miles burnt at 55 and at 33 mpg. */
  predicate WithinEconomyBounds(t: Totals) {
    t.vehicles >= 0 && t.miles >= 0.0 &&
    t.miles / 55.0 * LitresPerGallon <= t.litres <= t.miles / 33.0 * LitresPerGallon
  }

  /** A sum of parts within the economy bounds is within them. */
  lemma {:induction false} SumWithinEconomyBounds(parts: map<int, Totals>, keys: set<int>)
    requires keys <= parts.Keys
    requires forall r :: r in keys ==> WithinEconomyBounds(parts[r])
    ensures WithinEconomyBounds(Sum(parts, keys))
    decreases keys
  {
    if keys != {} {
      SumWithinEconomyBounds(parts, keys - {MinKey(keys)});
    }
  }

  /** For x >= 0 and 33 <= g <= 55, x / 55 <= x / g <= x / 33, in litres. */
  lemma DivideBetween(x: real, g: real)
    requires x >= 0.0 && 33.0 <= g <= 55.0
    ensures x / 55.0 * LitresPerGallon <= x / g * LitresPerGallon <= x / 33.0 * LitresPerGallon
  {
    assert x / 55.0 <= x / g by {
      assert x / g * g == x;
      assert x / 55.0 * 55.0 == x;
      assert x / 55.0 * g <= x / 55.0 * 55.0;
    }
    assert x / g <= x / 33.0 by {
      assert x / g * g == x;
      assert x / 33.0 * 33.0 == x;
      assert x / g * 33.0 <= x / g * g;
    }
  }

  /** n * m >= 0 for non-negative n and m. */
  lemma ProductNonNegative(n: real, m: real)
    requires n >= 0.0 && m >= 0.0
    ensures n * m >= 0.0
  {
  }

  /** One cohort's litres lie between its miles at 55 mpg and at 33 mpg. */
  lemma CohortWithinEconomyBounds(year: int, regYear: int, count: int, adjustment: real)
    requires count >= 0 && adjustment >= 0.0
    ensures WithinEconomyBounds(CohortTotals(year, regYear, count, adjustment))
  {
    var age := year - regYear;
    ProductNonNegative(Mileage(age), adjustment);
    ProductNonNegative(count as real, Mileage(age) * adjustment);
    DivideBetween(count as real * (Mileage(age) * adjustment), Mpg(age));
  }

  /**
    A year's litres lie between what its miles would burn at the best (55 mpg)
    and the worst (33 mpg) fuel economy in the table, when the cohort counts and
    the adjustment are non-negative.
  */
  lemma YearWithinEconomyBounds(year: int, cohorts: map<int, int>, adjustment: real)
    requires adjustment >= 0.0
    requires forall r :: r in cohorts ==> cohorts[r] >= 0
    ensures WithinEconomyBounds(YearTotals(year, cohorts, adjustment))
  {
    var parts := Contributions(year, cohorts, adjustment);
    forall r | r in cohorts.Keys
      ensures WithinEconomyBounds(parts[r])
    {
      CohortWithinEconomyBounds(year, r, cohorts[r], adjustment);
    }
    SumWithinEconomyBounds(parts, cohorts.Keys);
  }

  /** A 2020 cohort of 98,300 vehicles in 2025 (age 5: 9,344 miles a year at 53 mpg). */
  lemma SingleCohortTotals()
    ensures CohortTotals(2025, 2020, 98300, 1.0) == Totals(98300, 918515200.0, 918515200.0 / 53.0 * LitresPerGallon)
  {
    assert Mileage(5) == 9344.0 && Mpg(5) == 53.0;
  }

  /** A year whose only cohort is that one drives 918,515,200 miles. */
  lemma SingleCohortYear()
    ensures YearTotals(2025, map[2020 := 98300], 1.0) == Totals(98300, 918515200.0, 918515200.0 / 53.0 * LitresPerGallon)
  {
    var c := map[2020 := 98300];
    var parts := Contributions(2025, c, 1.0);
    assert c.Keys == {2020};
    assert MinKey({2020}) == 2020;
    assert {2020} - {2020} == {};
    SingleCohortTotals();
    assert parts[2020] == CohortTotals(2025, 2020, 98300, 1.0);
  }
}
