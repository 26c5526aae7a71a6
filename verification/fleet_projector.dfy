/**
  The cohort fleet projector (`build_fleet_model`): for every calendar year in
  [baseYear, forecastYear] a map from registration year to the number of
  vehicles of that registration year still on the road.
*/
module FleetProjector {
  import opened Wrappers
  import opened CurveTables
  import opened YearKeys

  /** A yearly series keyed by year (new diesel cars, new diesel vans, litres consumed). */
  type Series = map<int, real>

  /** The external tables the model reads; each may be missing. */
  datatype ExternalData = ExternalData(
    carSales: Option<Series>,
    vanSales: Option<Series>,
    fuelConsumption: Option<Series>)

  /** year -> (registration year -> surviving vehicles). */
  type Fleet = map<int, map<int, int>>

  /** The first registration year the projector looks at. */
  const FirstRegistrationYear: int := 1995

  /** Year-over-year decline applied to registrations after the last known year. */
  const DeclineRate: real := 0.85

  /** `b ** n` for a natural exponent. */
  function Pow(b: real, n: nat): (r: real)
    ensures 0.0 <= b <= 1.0 ==> 0.0 <= r <= 1.0
    ensures 0.0 < b ==> 0.0 < r
  {
    if n == 0 then 1.0
    else
      var p := Pow(b, n - 1);
      assert 0.0 <= b <= 1.0 ==> b * p <= 1.0 * p;
      b * p
  }

  /** Python's `int()` on a real: truncation toward zero. */
  function Trunc(x: real): (r: int)
    ensures 0.0 <= x ==> 0 <= r && r as real <= x < r as real + 1.0
    ensures x < 0.0 ==> r <= 0 && x <= r as real && r as real - 1.0 < x
  {
    if x >= 0.0 then x.Floor else -((-x).Floor)
  }

  lemma TruncMonotone(x: real, y: real)
    requires 0.0 <= x <= y
    ensures Trunc(x) <= Trunc(y)
  {
  }

  /**
    New registrations for a cohort: the recorded figure; after the last recorded
    year, the last figure compounded down by DeclineRate per year; otherwise none
    (years before the data and gaps inside it). With an empty table every year is
    none, as pandas compares against a NaN maximum.
  */
  function NewRegistrations(sales: Series, regYear: int): (n: Option<real>)
    ensures regYear in sales ==> n == Some(sales[regYear])
    ensures regYear !in sales ==> (n.Some? <==> sales.Keys != {} && regYear > MaxKey(sales.Keys))
    ensures sales.Keys != {} && regYear > MaxKey(sales.Keys) ==> n.Some? && n.value == sales[MaxKey(sales.Keys)] * Pow(DeclineRate, regYear - MaxKey(sales.Keys))
  {
    if regYear in sales then Some(sales[regYear])
    else if sales.Keys == {} then None
    else Extrapolated(sales, MaxKey(sales.Keys), regYear)
  }

  /** `sales[last] * DeclineRate ** (regYear - last)` for a year after `last`; none before it. */
  function Extrapolated(sales: Series, last: int, regYear: int): Option<real>
    requires last in sales
  {
    if regYear > last then Some(sales[last] * Pow(DeclineRate, regYear - last)) else None
  }

  /** `int(new_cars * survival)`, or 0 where the cohort has no registration figure. */
  function SurvivingCount(sales: Series, year: int, regYear: int): (c: int)
    ensures NewRegistrations(sales, regYear).None? ==> c == 0
    ensures !(0 <= year - regYear <= MaxAge) ==> c == 0
    ensures NewRegistrations(sales, regYear).Some? && 0.0 <= NewRegistrations(sales, regYear).value ==>
      0 <= c && c as real <= NewRegistrations(sales, regYear).value
  {
    match NewRegistrations(sales, regYear)
    case None => 0
    case Some(newCars) => Trunc(newCars * Survival(year - regYear))
  }

  /** A cohort's count is its registrations times its survival fraction, truncated. */
  lemma CohortCount(sales: Series, year: int, regYear: int, newCars: real, survival: real, surviving: int)
    requires NewRegistrations(sales, regYear).Some? && NewRegistrations(sales, regYear).value == newCars
    requires survival == Survival(year - regYear)
    requires surviving == Trunc(newCars * survival)
    ensures SurvivingCount(sales, year, regYear) == surviving
  {
    match NewRegistrations(sales, regYear)
    case Some(n) =>
      assert n == newCars;
  }

  /** A recorded year's registrations are the recorded figure. */
  lemma RecordedRegistrations(sales: Series, regYear: int)
    requires regYear in sales
    ensures NewRegistrations(sales, regYear).Some?
    ensures NewRegistrations(sales, regYear).value == sales[regYear]
  {
  }

  /** A year that is neither recorded nor after the last recorded year has no registrations, hence no cohort. */
  lemma SkippedRegistrations(sales: Series, year: int, regYear: int)
    requires regYear !in sales && !(sales.Keys != {} && regYear > MaxKey(sales.Keys))
    ensures NewRegistrations(sales, regYear).None?
    ensures SurvivingCount(sales, year, regYear) == 0
  {
  }

  /** Registrations after the last recorded year compound the last figure down. */
  lemma ExtrapolatedRegistrations(sales: Series, regYear: int, yearsAhead: nat, newCars: real)
    requires regYear !in sales && sales.Keys != {}
    requires yearsAhead == regYear - MaxKey(sales.Keys) > 0
    requires newCars == sales[MaxKey(sales.Keys)] * Pow(DeclineRate, yearsAhead)
    ensures NewRegistrations(sales, regYear).Some?
    ensures NewRegistrations(sales, regYear).value == newCars
  {
    var last := MaxKey(sales.Keys);
    assert Extrapolated(sales, last, regYear).value == sales[last] * Pow(DeclineRate, regYear - last);
  }

  /** The candidate cohorts of a calendar year: registered since 1995 and at most 25 years old. */
  predicate Candidate(year: int, regYear: int) {
    FirstRegistrationYear <= regYear && 0 <= year - regYear <= MaxAge
  }

  /** The cohorts of `year` among the registration years below `upTo`. */
  function CohortsBelow(sales: Series, year: int, upTo: int): (c: map<int, int>)
    ensures forall r :: r in c ==> r < upTo && Candidate(year, r) && c[r] == SurvivingCount(sales, year, r) > 0
    ensures forall r :: r < upTo && Candidate(year, r) && SurvivingCount(sales, year, r) > 0 ==> r in c
  {
    map r | FirstRegistrationYear <= r < upTo && 0 <= year - r <= MaxAge && SurvivingCount(sales, year, r) > 0
      :: SurvivingCount(sales, year, r)
  }

  /** The fleet snapshot of one calendar year: every candidate cohort with a positive count. */
  function Snapshot(sales: Series, year: int): (c: map<int, int>)
    ensures forall r :: r in c ==> FirstRegistrationYear <= r <= year && 0 <= year - r <= MaxAge && c[r] > 0
    ensures forall r :: r in c ==> c[r] == SurvivingCount(sales, year, r)
    ensures forall r :: Candidate(year, r) && SurvivingCount(sales, year, r) > 0 ==> r in c
  {
    CohortsBelow(sales, year, year + 1)
  }

  /** The fleet snapshots of the years baseYear..upTo - 1. */
  function FleetBelow(sales: Series, baseYear: int, upTo: int): (f: Fleet)
    ensures forall y :: y in f <==> baseYear <= y < upTo
    ensures forall y :: y in f ==> f[y] == Snapshot(sales, y)
  {
    map y | baseYear <= y < upTo :: Snapshot(sales, y)
  }

  /** The fleet model for the years baseYear..forecastYear. */
  function FleetSpec(sales: Series, baseYear: int, forecastYear: int): (f: Fleet)
    ensures forall y :: y in f <==> baseYear <= y <= forecastYear
    ensures forall y :: y in f ==> f[y] == Snapshot(sales, y)
  {
    FleetBelow(sales, baseYear, forecastYear + 1)
  }

  lemma CohortsBelowStep(sales: Series, year: int, regYear: int)
    ensures CohortsBelow(sales, year, regYear + 1) ==
      if Candidate(year, regYear) && SurvivingCount(sales, year, regYear) > 0
      then CohortsBelow(sales, year, regYear)[regYear := SurvivingCount(sales, year, regYear)]
      else CohortsBelow(sales, year, regYear)
  {
  }

  lemma CohortsBelowEmpty(sales: Series, year: int)
    ensures CohortsBelow(sales, year, FirstRegistrationYear) == map[]
  {
  }

  lemma CohortsBelowDone(sales: Series, year: int, upTo: int)
    requires year + 1 <= upTo
    ensures CohortsBelow(sales, year, upTo) == Snapshot(sales, year)
  {
  }

  lemma FleetBelowStep(sales: Series, baseYear: int, year: int)
    requires baseYear <= year
    ensures FleetBelow(sales, baseYear, year + 1) == FleetBelow(sales, baseYear, year)[year := Snapshot(sales, year)]
  {
  }

  /**
    `build_fleet_model`: fails when the car sales table is missing, and otherwise
    fills fleet[year] year by year, cohort by cohort.
  */
  method BuildFleetModel(data: ExternalData, baseYear: int, forecastYear: int) returns (r: Result<Fleet>)
    ensures data.carSales.None? ==> r == Failure("Car sales data required")
    ensures data.carSales.Some? ==> r == Success(FleetSpec(data.carSales.value, baseYear, forecastYear))
  {
    if data.carSales.None? {
      return Failure("Car sales data required");
    }
    var sales := data.carSales.value;
    var fleet: Fleet := map[];
    var year := baseYear;
    while year <= forecastYear
      invariant baseYear <= year && (year <= forecastYear + 1 || year == baseYear)
      invariant fleet == FleetBelow(sales, baseYear, year)
      decreases forecastYear - year
    {
      var cohorts: map<int, int> := map[];
      CohortsBelowEmpty(sales, year);
      var regYear := FirstRegistrationYear;
      while regYear <= year
        invariant FirstRegistrationYear <= regYear && (regYear <= year + 1 || regYear == FirstRegistrationYear)
        invariant cohorts == CohortsBelow(sales, year, regYear)
        decreases year - regYear
      {
        CohortsBelowStep(sales, year, regYear);
        var age := year - regYear;
        if age < 0 || age > MaxAge {
          regYear := regYear + 1;
          continue;
        }
        var known, surviving := CohortSurvivors(sales, year, regYear);
        if !known {
          regYear := regYear + 1;
          continue;
        }
        if surviving > 0 {
          cohorts := cohorts[regYear := surviving];
        }
        regYear := regYear + 1;
      }
      CohortsBelowDone(sales, year, regYear);
      FleetBelowStep(sales, baseYear, year);
      fleet := fleet[year := cohorts];
      year := year + 1;
    }
    return Success(fleet);
  }

  /**
    The body of the inner loop for one cohort: whether its registrations are
    known or extrapolated (`known`), and if so `int(new_cars * survival)`.
  */
  method CohortSurvivors(sales: Series, year: int, regYear: int) returns (known: bool, surviving: int)
    ensures known <==> NewRegistrations(sales, regYear).Some?
    ensures surviving == SurvivingCount(sales, year, regYear)
  {
    var newCars: real;
    if regYear in sales {
      newCars := sales[regYear];
      RecordedRegistrations(sales, regYear);
    } else {
      if sales.Keys != {} && regYear > MaxKey(sales.Keys) {
        var lastYear := MaxKey(sales.Keys);
        var yearsAhead := regYear - lastYear;
        newCars := sales[lastYear] * Pow(DeclineRate, yearsAhead);
        ExtrapolatedRegistrations(sales, regYear, yearsAhead, newCars);
      } else {
        SkippedRegistrations(sales, year, regYear);
        return false, 0;
      }
    }
    var survival := Survival(year - regYear);
    surviving := Trunc(newCars * survival);
    CohortCount(sales, year, regYear, newCars, survival, surviving);
    known := true;
  }

  // ----- Properties of the projection -----

  /** The value the registrations of a year after the last recorded one take. */
  lemma {:induction false} ExtrapolationCompounds(sales: Series, n: nat)
    requires sales.Keys != {}
    ensures var last := MaxKey(sales.Keys);
      NewRegistrations(sales, last + n).Some? &&
      NewRegistrations(sales, last + n).value == sales[last] * Pow(DeclineRate, n)
  {
    var last := MaxKey(sales.Keys);
    if n == 0 {
      RecordedRegistrations(sales, last);
    } else {
      assert last + n !in sales;
      ExtrapolatedRegistrations(sales, last + n, n, sales[last] * Pow(DeclineRate, n));
    }
  }

  /** Each year after the last recorded one has DeclineRate times the registrations of the year before. */
  lemma YearOverYearDecline(sales: Series, n: nat)
    requires sales.Keys != {}
    ensures var last := MaxKey(sales.Keys);
      NewRegistrations(sales, last + n + 1).Some? && NewRegistrations(sales, last + n).Some? &&
      NewRegistrations(sales, last + n + 1).value == NewRegistrations(sales, last + n).value * DeclineRate
  {
    var last := MaxKey(sales.Keys);
    ExtrapolationCompounds(sales, n);
    ExtrapolationCompounds(sales, n + 1);
    assert Pow(DeclineRate, n + 1) == DeclineRate * Pow(DeclineRate, n);
  }

  /** Three years after the last recorded value V, registrations are V * 0.85^3. */
  lemma ThreeYearsAhead(sales: Series)
    requires sales.Keys != {}
    ensures var last := MaxKey(sales.Keys);
      NewRegistrations(sales, last + 3).Some? &&
      NewRegistrations(sales, last + 3).value == sales[last] * 0.85 * 0.85 * 0.85
  {
    YearOverYearDecline(sales, 0);
    YearOverYearDecline(sales, 1);
    YearOverYearDecline(sales, 2);
    RecordedRegistrations(sales, MaxKey(sales.Keys));
  }

  /** A registration year has no figure exactly when it is unrecorded and not after the last recorded year. */
  lemma SkippedExactly(sales: Series, regYear: int)
    ensures NewRegistrations(sales, regYear).None? <==>
      regYear !in sales && (sales.Keys == {} || regYear < MaxKey(sales.Keys))
  {
    if regYear !in sales && sales.Keys != {} {
      assert MaxKey(sales.Keys) in sales;
    }
  }

  /**
    Every vehicle in a snapshot traces back to a registration figure (recorded or
    extrapolated), and a cohort never holds more vehicles than were registered.
  */
  lemma SurvivorsWithinRegistrations(sales: Series, year: int, regYear: int)
    requires regYear in Snapshot(sales, year)
    ensures NewRegistrations(sales, regYear).Some?
    ensures 0.0 < Snapshot(sales, year)[regYear] as real <= NewRegistrations(sales, regYear).value
  {
    var newCars := NewRegistrations(sales, regYear).value;
    var s := Survival(year - regYear);
    assert 0.0 < newCars * s;
    PositiveFactor(newCars, s);
    ScaleMonotone(newCars, s, 1.0);
  }

  lemma ScaleMonotone(n: real, a: real, b: real)
    requires 0.0 <= n && a <= b
    ensures n * a <= n * b
  {
  }

  lemma TruncScaledMonotone(n: real, a: real, b: real)
    requires 0.0 <= n && 0.0 <= a <= b
    ensures Trunc(n * a) <= Trunc(n * b)
  {
    ScaleMonotone(n, a, b);
    assert 0.0 <= n * a;
    TruncMonotone(n * a, n * b);
  }

  lemma PositiveFactor(n: real, s: real)
    requires 0.0 <= s && 0.0 < n * s
    ensures 0.0 < n
  {
  }

  /**
    A cohort only shrinks as it ages: if it is on the road in a later year it was
    on the road in every earlier candidate year, with at least as many vehicles.
  */
  lemma CohortShrinks(sales: Series, year1: int, year2: int, regYear: int)
    requires year1 <= year2 && Candidate(year1, regYear)
    requires regYear in Snapshot(sales, year2)
    ensures regYear in Snapshot(sales, year1)
    ensures Snapshot(sales, year2)[regYear] <= Snapshot(sales, year1)[regYear]
  {
    SurvivorsWithinRegistrations(sales, year2, regYear);
    var newCars := NewRegistrations(sales, regYear).value;
    var s1 := Survival(year1 - regYear);
    var s2 := Survival(year2 - regYear);
    SurvivalNonIncreasing(year1 - regYear, year2 - regYear);
    TruncScaledMonotone(newCars, s2, s1);
    CohortCount(sales, year1, regYear, newCars, s1, Trunc(newCars * s1));
    CohortCount(sales, year2, regYear, newCars, s2, Trunc(newCars * s2));
  }

  /** The worked example: 100000 cars registered in 2020 leave 98300 on the road in 2025. */
  lemma SingleCohortExample()
    ensures 2020 in Snapshot(map[2020 := 100000.0], 2025)
    ensures Snapshot(map[2020 := 100000.0], 2025)[2020] == 98300
  {
    var sales := map[2020 := 100000.0];
    RecordedRegistrations(sales, 2020);
    assert Survival(5) == 0.983;
    assert Trunc(100000.0 * 0.983) == 98300;
  }
}
