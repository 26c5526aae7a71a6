/**
  The three per-age curve tables of the diesel car model: survival fraction,
  median annual mileage and fuel economy (UK miles per gallon), each defined for
  vehicle ages 0..25, with the fixed defaults the model uses outside that range.

  Provenance, which no definition here depends on: survival ages 0-4 and mileage
  ages 0-2 are estimates, mileage from age 21 on is marked as extrapolated, and
  the other entries come from roadworthiness-test records.
*/
module CurveTables {

  /** The largest age held by every table. */
  const MaxAge: int := 25

  const SurvivalTable: seq<real> := [
    1.000, 0.998, 0.995, 0.990, 0.987, 0.983, 0.971, 0.958, 0.944, 0.931,
    0.912, 0.885, 0.851, 0.803, 0.731, 0.659, 0.569, 0.434, 0.345, 0.256,
    0.184, 0.130, 0.090, 0.060, 0.035, 0.020
  ]

  const MileageTable: seq<real> := [
    12000.0, 11800.0, 11700.0, 11617.0, 9769.0, 9344.0, 8977.0, 8625.0, 8286.0, 7923.0,
    7594.0, 7266.0, 6959.0, 6647.0, 6284.0, 6015.0, 5644.0, 5328.0, 4946.0, 4514.0,
    4151.0, 3800.0, 3500.0, 3200.0, 2900.0, 2600.0
  ]

  const MpgTable: seq<real> := [
    55.0, 55.0, 55.0, 55.0, 54.0, 53.0, 52.0, 51.0, 50.0, 49.0,
    48.0, 47.0, 46.0, 45.0, 44.0, 43.0, 42.0, 41.0, 40.0, 39.0,
    38.0, 37.0, 36.0, 35.0, 34.0, 33.0
  ]

  /** Default annual mileage for an age outside the table. */
  const DefaultMileage: real := 4000.0

  /** Default fuel economy for an age outside the table. */
  const DefaultMpg: real := 40.0

  predicate InTable(age: int) {
    0 <= age <= MaxAge
  }

  /** Every table entry is a fraction, and the table has one entry per age. */
  lemma SurvivalTableShape()
    ensures |SurvivalTable| == MaxAge + 1
    ensures forall a :: 0 <= a < |SurvivalTable| ==> 0.0 <= SurvivalTable[a] <= 1.0
    ensures forall a :: 0 <= a < |SurvivalTable| - 1 ==> SurvivalTable[a + 1] <= SurvivalTable[a]
  {
  }

  /** `SURVIVAL_RATES.get(age, 0)`: the survival fraction at an age, 0 outside the table. */
  function Survival(age: int): (s: real)
    ensures 0.0 <= s <= 1.0
    ensures !InTable(age) ==> s == 0.0
    ensures age == 0 ==> s == 1.0
  {
    SurvivalTableShape();
    if InTable(age) then SurvivalTable[age] else 0.0
  }

  /** `ANNUAL_MILEAGE_BY_AGE.get(age, 4000)`: median annual miles at an age. */
  function Mileage(age: int): (m: real)
    ensures m > 0.0
    ensures !InTable(age) ==> m == DefaultMileage
  {
    if InTable(age) then MileageTable[age] else DefaultMileage
  }

  /** `DIESEL_MPG_BY_AGE.get(age, 40)`: fuel economy at an age; never zero, so it is a safe divisor. */
  function Mpg(age: int): (m: real)
    ensures 33.0 <= m <= 55.0
    ensures !InTable(age) ==> m == DefaultMpg
  {
    if InTable(age) then MpgTable[age] else DefaultMpg
  }

  /** Survival never increases with age: for 0 <= a1 <= a2, Survival(a2) <= Survival(a1). */
  lemma {:induction false} SurvivalNonIncreasing(a1: int, a2: int)
    requires 0 <= a1 <= a2
    ensures Survival(a2) <= Survival(a1)
    decreases a2 - a1
  {
    if a1 < a2 {
      SurvivalNonIncreasing(a1, a2 - 1);
      SurvivalTableShape();
      assert Survival(a2) <= Survival(a2 - 1);
    }
  }

  /** Mileage per vehicle never increases with age within the table. */
  lemma {:induction false} MileageNonIncreasing(a1: int, a2: int)
    requires 0 <= a1 <= a2 <= MaxAge
    ensures Mileage(a2) <= Mileage(a1)
    decreases a2 - a1
  {
    if a1 < a2 {
      MileageNonIncreasing(a1, a2 - 1);
      assert forall a :: 0 <= a < MaxAge ==> MileageTable[a + 1] <= MileageTable[a];
    }
  }

  /** Fuel economy never improves with age within the table. */
  lemma {:induction false} MpgNonIncreasing(a1: int, a2: int)
    requires 0 <= a1 <= a2 <= MaxAge
    ensures Mpg(a2) <= Mpg(a1)
    decreases a2 - a1
  {
    if a1 < a2 {
      MpgNonIncreasing(a1, a2 - 1);
      assert forall a :: 0 <= a < MaxAge ==> MpgTable[a + 1] <= MpgTable[a];
    }
  }
}
