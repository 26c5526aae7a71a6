# Diesel car fleet and consumption model, in Dafny

This project models the cohort model of UK diesel car fuel use in
`scripts/diesel_prediction.py`. It has four parts:

- **The per-age curve tables.** These are survival fraction, median annual mileage and
  fuel economy for vehicle ages 0..25. Outside that range each lookup falls back to
  its default: 0, 4000 miles and 40 mpg.
- **The fleet projector (`build_fleet_model`).** For every calendar year it holds a map
  from registration year to surviving vehicles. The registration figure of a cohort
  comes from one of three places:
  - the car sales table;
  - a 0.85-per-year decline from the last recorded year;
  - nowhere, in which case the cohort is skipped.

  The figure is multiplied by the survival fraction and truncated with `int()`.
- **The consumption calculator (`calculate_consumption`).** For each year in
  ascending order it sums vehicles, miles and litres over the cohorts, with a
  multiplicative mileage adjustment.
- **The arithmetic around them:**
  - the van-fleet recurrence of `estimate_van_consumption`;
  - the backtest's relative error against 55% of recorded road diesel;
  - `forecast`'s change against 2024.

Numbers are Dafny `real`s. `int()` is `FleetProjector.Trunc`, which truncates toward
zero. The pandas tables become values:

- a sales or consumption table is a `map<int, real>` keyed by year;
- the fleet is the nested dictionary `map<int, map<int, int>>`;
- an output data frame is a sequence of records.

Code that works by updating variables in loops is modelled as a `method` with loop
invariants. Each such method is proved equal to a specification function, and the
properties are lemmas about that function.

The files are:

- `wrappers.dfy`: the `Option` and `Result` types.
- `curve_tables.dfy`: the tables and their lookups.
- `year_keys.dfy`: the largest and smallest key of a year set. These stand for
  `index.max()` and `sorted(...)`.
- `fleet_projector.dfy`: the fleet projector.
- `consumption.dfy`: the consumption calculator.
- `validation.dfy`: the van estimate, the backtest and the forecast.

Three facts about the code that a reader might expect otherwise:

- **Truncation.** Line 221 converts the surviving count with `int()`, which
  truncates; it does not round.
- **Division.** Only the forecast's change is guarded: `if base_litres` (line 386)
  is false for a 2024 figure of 0, so line 387 never divides by zero. The
  divisions in `calculate_consumption` and `backtest` are unguarded. Fuel economy
  `Mpg` always lies in [33, 55], so `calculate_consumption` never divides by zero.
  A recorded consumption figure of 0 makes the backtest division give an infinity
  or NaN in numpy, and the model returns `Validation.NonFinite` for it.
- **A worked cohort.** 98,300 vehicles of age 5 at 9,344 miles a year drive
  98,300 × 9,344 = 918,515,200 miles, proved in
  `ConsumptionCalculator.SingleCohortYear`.

## Model

| member | source | states |
|---|---|---|
| CurveTables.Survival | scripts/diesel_prediction.py:220 | `SURVIVAL_RATES.get(age, 0)` is always in [0, 1]; it is 0 outside ages 0..25 and 1.0 at age 0 |
| CurveTables.Mileage | scripts/diesel_prediction.py:251 | `ANNUAL_MILEAGE_BY_AGE.get(age, 4000)` is positive, and 4000 outside ages 0..25 |
| CurveTables.Mpg | scripts/diesel_prediction.py:254 | `DIESEL_MPG_BY_AGE.get(age, 40)` lies in [33, 55], so it is a safe divisor; it is 40 outside ages 0..25 |
| CurveTables.SurvivalTableShape | scripts/diesel_prediction.py:41-68 | the survival table has one entry for each age 0..25; every entry is between 0 and 1; no entry is larger than the one for the previous age |
| CurveTables.SurvivalNonIncreasing | scripts/diesel_prediction.py:41-68 | survival never increases with age, including past the table where it drops to 0 |
| CurveTables.MileageNonIncreasing | scripts/diesel_prediction.py:77-104 | within the table, annual mileage never increases with age |
| CurveTables.MpgNonIncreasing | scripts/diesel_prediction.py:113-140 | within the table, fuel economy never improves with age |
| YearKeys.MaxKey | scripts/diesel_prediction.py:210-212 | `car_sales.index.max()` of a non-empty index belongs to the index and is at least every year in it |
| YearKeys.MinKey | scripts/diesel_prediction.py:242 | the year `sorted(fleet.items())` visits first belongs to the fleet and is at most every year in it |
| FleetProjector.Pow | scripts/diesel_prediction.py:215 | `decline_rate ** years_ahead` stays in [0, 1] for a rate in [0, 1] and is positive for a positive rate |
| FleetProjector.Trunc | scripts/diesel_prediction.py:221 | `int(x)` truncates toward zero: for x >= 0 it is the largest whole number not above x; for x < 0 it is the smallest whole number not below x |
| FleetProjector.NewRegistrations | scripts/diesel_prediction.py:206-217 | the three-branch registration figure: a recorded year takes its recorded figure; an unrecorded year has a figure exactly when the table is non-empty and the year is after its last year, and that figure is the last figure times 0.85 to the power of the years ahead; every other year has none |
| FleetProjector.SurvivingCount | scripts/diesel_prediction.py:219-223 | the count `int(new_cars * survival(age))` is 0 for a cohort without a figure and for an age outside 0..25; for a non-negative figure it lies between 0 and that figure |
| FleetProjector.CohortsBelow | scripts/diesel_prediction.py:197-224 | the cohorts kept after registration years below `upTo` are exactly the candidates with a positive surviving count, each stored with that count |
| FleetProjector.Snapshot | scripts/diesel_prediction.py:193-224 | every cohort of a year has 1995 <= reg_year <= year, an age in 0..25, a positive count equal to its surviving count, and every such cohort is present |
| FleetProjector.FleetBelow | scripts/diesel_prediction.py:193-194 | the years filled before `upTo` are exactly [base_year, upTo), each holding its snapshot |
| FleetProjector.FleetSpec | scripts/diesel_prediction.py:193-194 | the fleet has exactly one key for every year in [base_year, forecast_year], each holding that year's snapshot |
| FleetProjector.BuildFleetModel | scripts/diesel_prediction.py:178-226 | missing car sales fail with "Car sales data required"; otherwise the nested loops build exactly the specified fleet |
| FleetProjector.CohortSurvivors | scripts/diesel_prediction.py:205-221 | inner-loop body of `build_fleet_model` (cohort figure and survivors), proved equal to `NewRegistrations` and `SurvivingCount`: its three branches find a figure exactly when one exists |
| FleetProjector.YearOverYearDecline | scripts/diesel_prediction.py:213-215 | each extrapolated year is 0.85 times the year before it |
| FleetProjector.ThreeYearsAhead | scripts/diesel_prediction.py:213-215 | three years ahead the figure is the last figure times 0.85 * 0.85 * 0.85 |
| FleetProjector.SkippedExactly | scripts/diesel_prediction.py:206-217 | a cohort is skipped exactly when its year is not recorded and the table is empty or the year is before the last recorded year |
| FleetProjector.SurvivorsWithinRegistrations | scripts/diesel_prediction.py:219-224 | a kept cohort has a registration figure, and its count is positive and never more than that figure |
| FleetProjector.CohortShrinks | scripts/diesel_prediction.py:219-224 | a cohort present in a later year is present in every earlier year from its registration on, with at least as many vehicles |
| FleetProjector.TruncMonotone | scripts/diesel_prediction.py:221 | truncation of non-negative values preserves order |
| FleetProjector.SingleCohortExample | scripts/diesel_prediction.py:206-224 | with sales {2020: 100000}, the 2025 fleet holds 98,300 vehicles of 2020 |
| FleetProjector.RecordedRegistrations | scripts/diesel_prediction.py:206-207 | unfolding step used by the loop proof: a recorded year takes its recorded figure |
| FleetProjector.ExtrapolatedRegistrations | scripts/diesel_prediction.py:209-215 | unfolding step used by the loop proof: a year after the last recorded year takes the last figure times 0.85 to the power of the years ahead |
| FleetProjector.SkippedRegistrations | scripts/diesel_prediction.py:216-217 | unfolding step used by the loop proof: any other year has no figure and contributes no vehicles |
| FleetProjector.CohortCount | scripts/diesel_prediction.py:219-221 | unfolding step used by the loop proof: the surviving count is `int(new_cars * survival(age))` |
| FleetProjector.ExtrapolationCompounds | scripts/diesel_prediction.py:210-215 | n years after the last recorded year the figure is the last figure times 0.85^n; the step from which YearOverYearDecline follows |
| ConsumptionCalculator.CohortTotals | scripts/diesel_prediction.py:248-259 | one cohort contributes its own count of vehicles, and its litres times the age's fuel economy equal its miles times 4.546 (miles / mpg gallons, in litres) |
| ConsumptionCalculator.Usage | scripts/diesel_prediction.py:251-259 | the same arithmetic with the table values as parameters: the count of vehicles, and litres times mpg equal to miles times 4.546 |
| ConsumptionCalculator.Sum | scripts/diesel_prediction.py:243-263 | the sum over no cohorts is zero; SumPick, SumScaled and SumWithinEconomyBounds give what the sum means: it is independent of the order of the cohorts, linear, and keeps the economy bounds |
| ConsumptionCalculator.YearTotals | scripts/diesel_prediction.py:243-263 | a year without cohorts has zero totals; with cohorts, YearLinear and YearWithinEconomyBounds state how its totals scale and where its litres lie |
| ConsumptionCalculator.RecordOf | scripts/diesel_prediction.py:265-270 | the emitted row is for the given year, and its fleet size times 1e6, its miles times 1e9 and its litres times 1e9 give back the year's totals |
| ConsumptionCalculator.ConsumptionSeries | scripts/diesel_prediction.py:229-272 | the output of `calculate_consumption` has one row per fleet year, in strictly ascending year order; ConsumptionSeriesShape adds what each row holds |
| ConsumptionCalculator.CalculateConsumption | scripts/diesel_prediction.py:229-272 | the loop over `sorted(fleet.items())` returns the specified series |
| ConsumptionCalculator.AggregateYear | scripts/diesel_prediction.py:243-270 | the running totals over a year's cohorts give the row of the year's summed totals, divided by 1e6, 1e9 and 1e9 |
| ConsumptionCalculator.CohortUsage | scripts/diesel_prediction.py:248-259 | inner-loop body of `AggregateYear`, proved equal to `CohortTotals`: one cohort drives count * (mileage(age) * adj) miles and burns those miles / mpg(age) * 4.546 litres |
| ConsumptionCalculator.SumPick | scripts/diesel_prediction.py:247 | the year's totals do not depend on the order in which `cohorts.items()` yields the cohorts |
| ConsumptionCalculator.InOrderShape | scripts/diesel_prediction.py:242 | listing rows by ascending key gives one row per key, in strictly ascending year order, each the row of its year |
| ConsumptionCalculator.ConsumptionSeriesShape | scripts/diesel_prediction.py:242-270 | there is exactly one record per fleet year, in ascending year order, and each record carries that year's sums over its cohorts |
| ConsumptionCalculator.UsageLinear | scripts/diesel_prediction.py:251-259 | with adjustment k, the count is unchanged and the miles and litres are k times those with 1.0, for any mileage and non-zero economy |
| ConsumptionCalculator.CohortLinear | scripts/diesel_prediction.py:251-259 | with adjustment k, a cohort's vehicles are unchanged and its miles and litres are k times those with 1.0 |
| ConsumptionCalculator.SumScaled | scripts/diesel_prediction.py:261-263 | sums of parts scaled by k are the scaled sums |
| ConsumptionCalculator.YearLinear | scripts/diesel_prediction.py:245-263 | with adjustment k, a year's vehicles are unchanged and its total miles and litres are k times those with 1.0 |
| ConsumptionCalculator.RecordScaled | scripts/diesel_prediction.py:265-270 | the row of scaled totals is the scaled row |
| ConsumptionCalculator.InOrderScaled | scripts/diesel_prediction.py:242 | listing scaled rows in year order lists the scaled rows of the original order |
| ConsumptionCalculator.ConsumptionLinear | scripts/diesel_prediction.py:229-270 | `calculate_consumption(fleet, k)` is the default series with every row's miles and litres times k; its years and fleet sizes are the same |
| ConsumptionCalculator.CohortWithinEconomyBounds | scripts/diesel_prediction.py:251-259 | for non-negative counts and adjustment, a cohort's litres lie between its miles burnt at 55 mpg and at 33 mpg |
| ConsumptionCalculator.SumWithinEconomyBounds | scripts/diesel_prediction.py:261-263 | adding up totals within those bounds stays within them |
| ConsumptionCalculator.YearWithinEconomyBounds | scripts/diesel_prediction.py:245-263 | a year's litres lie between its miles burnt at the best and at the worst fuel economy of the table |
| ConsumptionCalculator.SingleCohortTotals | scripts/diesel_prediction.py:248-259 | 98,300 vehicles of age 5 drive 918,515,200 miles and burn 918,515,200 / 53 * 4.546 litres |
| ConsumptionCalculator.SingleCohortYear | scripts/diesel_prediction.py:242-263 | a year whose only cohort is that one has exactly those totals |
| Validation.VanStep | scripts/diesel_prediction.py:293-298 | a year without van sales leaves the fleet unchanged; a year with sales moves the fleet 8% of the way towards the steady state sales / 0.08 |
| Validation.VanFleetAfter | scripts/diesel_prediction.py:289-298 | before any year the fleet is 4,000,000; with non-negative sales it stays positive |
| Validation.VanRecordOf | scripts/diesel_prediction.py:300-307 | the row is for the given year; its fleet in millions times 1e6 is the fleet, and its litres in billions times 1e9 times 35 mpg equal the fleet's 12,000 miles a vehicle times 4.546 |
| Validation.VanSeries | scripts/diesel_prediction.py:287-309 | the van estimate has one row per requested year, and row i is for `years[i]` |
| Validation.VanYear | scripts/diesel_prediction.py:295-307 | loop body of `estimate_van_consumption`, proved equal to one `VanStep` and the `VanRecordOf` row it yields |
| Validation.EstimateVanConsumption | scripts/diesel_prediction.py:275-309 | missing van sales give no estimate; otherwise one row per year, holding the fleet after that year's recurrence step and its litres |
| Validation.VanFleetWithoutSales | scripts/diesel_prediction.py:289-298 | years without van sales leave the fleet at 4,000,000 |
| Validation.VanFleetBounded | scripts/diesel_prediction.py:293-298 | when yearly sales lie in [0, cap], the fleet stays positive and never exceeds the larger of 4,000,000 and the steady state cap / 0.08 |
| Validation.PercentDifference | scripts/diesel_prediction.py:349 | the percentage p = `(x - b) / b * 100` gives back x as b * (1 + p / 100) |
| Validation.PercentDifferenceSign | scripts/diesel_prediction.py:387 | against a positive base the percentage is positive, zero or negative exactly when x is above, at or below the base |
| Validation.BacktestError | scripts/diesel_prediction.py:343-349 | the error is unavailable exactly when no figure is recorded; it is non-finite exactly when the recorded figure is 0 |
| Validation.BacktestErrorInverse | scripts/diesel_prediction.py:348-349 | a percentage error e gives back the prediction as 0.55 * actual * (1 + e / 100) |
| Validation.BacktestErrorSign | scripts/diesel_prediction.py:348-349 | against a positive recorded figure, the error is a percentage; it is positive exactly when the prediction exceeds 55% of the figure, and zero exactly when it equals it |
| Validation.FirstVanLitresAbsent | scripts/diesel_prediction.py:333-337 | `FirstVanLitres`, the filter and first-row lookup: a year that no van row carries contributes 0 van litres (`FirstVanLitresAt` gives the value when a row exists) |
| Validation.VanLitresFor | scripts/diesel_prediction.py:333-337 | without a van estimate a year contributes 0 van litres |
| Validation.ActualFor | scripts/diesel_prediction.py:345-346 | a recorded figure is found exactly when the consumption table exists and holds the year, and it is that year's entry |
| Validation.BacktestRowOf | scripts/diesel_prediction.py:330-349 | a line keeps the car row's year and litres, its total is car + van litres, its van litres are `VanLitresFor` of its year (0 without a van estimate), its recorded figure is `ActualFor` of its year (present exactly when the table holds the year), and its error is unavailable exactly when there is no figure |
| Validation.BacktestTable | scripts/diesel_prediction.py:329-349 | the table has one line per car row, with that row's year and car litres |
| Validation.Backtest | scripts/diesel_prediction.py:312-355 | missing car sales fail; otherwise there is one line per car consumption row, with the van litres, total, recorded figure and error of that year |
| Validation.CompareYears | scripts/diesel_prediction.py:329-349 | the loop over the car rows produces the specified backtest table |
| Validation.FirstVanLitresAt | scripts/diesel_prediction.py:334-337 | `FirstVanLitres`: the first van row of a year supplies that year's van litres |
| Validation.FleetSeriesYears | scripts/diesel_prediction.py:193 | the consumption series of a fleet over [lo, hi] lists exactly the years lo, lo + 1, ..., hi |
| Validation.VanLineAt | scripts/diesel_prediction.py:333-337 | over consecutive years, the van litres looked up for year start + i are those of the van estimate's row i |
| Validation.LineOfTable | scripts/diesel_prediction.py:330-349 | over consecutive years, line i is for year start + i, carries that year's van litres, total = car + van, and has an error exactly when the year is recorded |
| Validation.TableLines | scripts/diesel_prediction.py:329-349 | over car rows for consecutive years, each line holds the van litres of the same year, total = car + van, and an error exactly when that year is recorded |
| Validation.BacktestLines | scripts/diesel_prediction.py:312-349 | a backtest over [start, end] has one line per year, in order; each line carries that year's van estimate (0 without van sales) and an error exactly when the year is recorded |
| Validation.Changes | scripts/diesel_prediction.py:375-388 | the change column has one entry per row, and rows before 2024 show no change; ChangeAgainstComparison gives the value of every later entry |
| Validation.BaseThroughNone | scripts/diesel_prediction.py:375-383 | after the first n rows `base_litres` is still unset exactly when none of them is the 2024 row |
| Validation.BaseAfterComparison | scripts/diesel_prediction.py:375-383 | in an ascending series, once the 2024 row is passed `base_litres` holds that row's litres |
| Validation.ChangeAgainstComparison | scripts/diesel_prediction.py:382-388 | every row from the 2024 row on shows its litres against the 2024 litres, in percent, when the 2024 litres are non-zero |
| Validation.ChangeColumn | scripts/diesel_prediction.py:375-388 | the loop that carries `base_litres` down the rows produces the specified change column |
| Validation.Forecast | scripts/diesel_prediction.py:360-388 | missing car sales fail; otherwise the result holds the default series over [2020, target], the 0.98 variant (equal to the default series with miles and litres times 0.98), and the change column |
| Validation.ForecastAgainst2024 | scripts/diesel_prediction.py:366-388 | a forecast to 2024 or later has one row per year from 2020 and 2024 as its fifth row; when the 2024 litres are non-zero, every row from 2024 on shows its litres against them in percent |
| Validation.PercentChange | scripts/diesel_prediction.py:385-387 | unfolding of the guard at line 386: a change is shown exactly when a non-zero 2024 figure is known and the year is 2024 or later |

## Left out

- `load_external_data` is not part of this model. It reads CSV files and prints
  warnings. Its result is the `ExternalData` value, three optional year-keyed tables.
  The source can also load a fourth table, `fleet_size` (lines 155-159). Only
  `summary` reads it, so it is dropped.
- `summary`, `main`, argparse and all `print` formatting in `backtest` and `forecast`
  are not modelled. These operations return the rows they would print.
- `forecast` computes a second series with a mileage adjustment of 0.98 (line 370),
  then never prints or uses it. `Validation.Forecast` returns it anyway, so that
  `ConsumptionCalculator.ConsumptionLinear` can be stated about it.
- The progress message printed by `build_fleet_model` (line 184) and the warning
  printed by `estimate_van_consumption` when van sales are missing (line 283) are
  not modelled; they do not affect any result.
- Default arguments are not modelled; every caller passes each value. The defaults are:
  - `base_year=2010` and `forecast_year=2035` for `build_fleet_model` (line 178);
  - `mileage_adjustment=1.0` for `calculate_consumption` (line 229);
  - `start_year=2015` and `end_year=2024` for `backtest` (line 312);
  - `target_year=2035` for `forecast` (line 360).
- `scripts/diesel_analysis.py` is not part of this model. It issues SQL through a
  database module and reads the wall clock.
- IEEE-754 floating point is not modelled; all arithmetic is exact on reals. Products
  truncated by `int()`, such as 100000 × 0.983, may truncate differently in floating
  point. Sums are exact, so the order of `cohorts.items()` does not matter, as
  `SumPick` shows.
- pandas tables with a repeated year are not modelled. A table is a map, so each year
  holds one value. Missing (NaN) cells are not modelled either.
- `FleetProjector.BuildFleetModel` builds each year's cohort map in a local map and then
  stores it. The source writes `fleet[year][reg_year]` in place. No other reference to
  the inner dictionary exists, so the final value is the same.
- Some loops and loop bodies are separate methods, each proved against the same
  specification as the code around it:
  - `FleetProjector.CohortSurvivors` is lines 205-221 of the inner loop body of
    `build_fleet_model`. The age guard (lines 202-203) and the store of a positive
    count (lines 223-224) stay in `BuildFleetModel`.
  - `ConsumptionCalculator.AggregateYear` is the body of the outer loop of
    `calculate_consumption`.
  - `ConsumptionCalculator.CohortUsage` is lines 248-259 of the inner loop body of
    `calculate_consumption`. The running-total updates (lines 261-263) stay in
    `AggregateYear`.
  - `Validation.VanYear` is the body of the loop of `estimate_van_consumption`
    (lines 295-307).
  - `Validation.CompareYears` is the whole loop of `backtest` over the car rows.
  - `Validation.ChangeColumn` is the whole loop of `forecast` (lines 375-388).
- An empty car sales table makes `car_sales.index.max()` NaN in pandas. Every
  comparison with NaN is false, so every unrecorded cohort is skipped. The model
  states this directly instead of computing with NaN.
- `Validation.Backtest`: the van row is looked up by a pandas filter. It is modelled
  as the first van record of the year, or 0 when there is none.
- `Validation.BacktestError`: a recorded figure of 0 gives an infinity or NaN in numpy.
  The model gives `NonFinite` and no value.
- The error printed as "N/A" when it is exactly 0 (line 352) is display behaviour.
  The model keeps the value.
- The `.iloc[0]` lookups of the 2030 and 2035 rows (lines 396-397) are display only,
  and they are not modelled. For a target year from 2020 to 2029, line 396 raises
  `IndexError`, because no 2030 row exists. For a target year before 2020, the
  consumption table is empty and has no `year` column, so line 396 raises
  `KeyError`. In both cases `Validation.Forecast` returns `Success`, with series
  that stop at the target year (empty before 2020).
- The `ValueError` raised for missing car sales is a `Failure` result.
  `Validation.Backtest` and `Validation.Forecast` pass it on unchanged.
