/** The dynamic pricing rules: tables, first-match lookups and the breakdown of a quote. */
module Pricing {
  import opened Entities
  import opened Rounding
  import opened Occupancy
  import opened Breakdown

  /** A bucket ends below `upper` percent; None is infinity. Multipliers are in hundredths. */
  datatype DemandBucket = DemandBucket(upper: Option<nat>, multiplier: int)

  const DEMAND_TABLE: seq<DemandBucket> := [
    DemandBucket(Some(31), 100), DemandBucket(Some(51), 115), DemandBucket(Some(71), 135),
    DemandBucket(Some(86), 160), DemandBucket(Some(96), 200), DemandBucket(None, 250)]

  /** Buckets by the least number of days before departure, in descending order. */
  const TIME_TABLE: seq<(int, int)> := [(60, 85), (21, 90), (7, 100), (3, 120), (1, 150), (0, 200)]

  const SURCHARGES: map<(SeatClass, SeatKind), Cents> := map[
    (Economy, Standard) := 0, (Economy, ExitRow) := 3500, (Economy, FrontSection) := 2500,
    (Economy, Aisle) := 1500, (Economy, Window) := 1500, (Economy, Middle) := -500,
    (Business, Standard) := 0, (Business, LieFlatSuite) := 20000, (Business, WindowSuite) := 10000,
    (Business, AisleAccess) := 7500,
    (First, Standard) := 0, (First, PrivateSuite) := 50000, (First, FrontRow) := 15000]

  const FEES_TABLE: map<FlightId, Cents> := map[]

  /** The multiplier of the first bucket, from the i-th on, that the occupancy is below. */
  function FirstDemand(i: nat, occupancy: Decimal): int
    requires i < |DEMAND_TABLE|
    decreases |DEMAND_TABLE| - i
  {
    var bucket := DEMAND_TABLE[i];
    if bucket.upper.None? || LessThan(occupancy, bucket.upper.value) then bucket.multiplier
    else FirstDemand(i + 1, occupancy)
  }

  function DemandMultiplier(occupancy: Decimal): int {
    FirstDemand(0, occupancy)
  }

  /** The multiplier of the first bucket, from the i-th on, whose threshold is reached. */
  function FirstTime(i: nat, daysBefore: nat): int
    requires i < |TIME_TABLE|
    decreases |TIME_TABLE| - i
  {
    if daysBefore >= TIME_TABLE[i].0 then TIME_TABLE[i].1 else FirstTime(i + 1, daysBefore)
  }

  function TimeMultiplier(daysBefore: nat): int {
    FirstTime(0, daysBefore)
  }

  function DayMultiplier(day: DayOfWeek): int {
    match day
    case Mon => 90
    case Tue => 85
    case Wed => 85
    case Thu => 95
    case Fri => 125
    case Sat => 115
    case Sun => 130
  }

  /** The tax rate in thousandths. */
  function TaxRate(route: RouteKind): int {
    match route
    case Domestic => 75
    case International => 120
  }

  function LookupSeatSurcharge(seatClass: SeatClass, kind: SeatKind): Cents {
    if (seatClass, kind) in SURCHARGES then SURCHARGES[(seatClass, kind)] else 0
  }

  function FlatFee(table: map<FlightId, Cents>, flightId: FlightId): Raw {
    if flightId in table then table[flightId] * CENT else 0
  }

  function LookupFlatFees(flightId: FlightId): Raw {
    FlatFee(FEES_TABLE, flightId)
  }

  /** Tax on a base given in units of 10^-8 dollars, exact in units of 10^-11. */
  function ComputeTaxes(taxableBase: int, route: RouteKind): Raw {
    taxableBase * TaxRate(route)
  }

  function Price(baseFare: Cents, occupancy: Decimal, daysBefore: nat, day: DayOfWeek,
                 surcharges: seq<SurchargeLine>, taxes: Raw, fees: Raw): PriceBreakdown {
    PriceBreakdown(baseFare, DemandMultiplier(occupancy), TimeMultiplier(daysBefore), DayMultiplier(day),
                   surcharges, taxes, fees)
  }

  /** The demand multiplier by an exact count of taken seats. */
  function DemandByCount(taken: nat, seats: nat): int {
    if seats == 0 || 100 * taken < 31 * seats then 100
    else if 100 * taken < 51 * seats then 115
    else if 100 * taken < 71 * seats then 135
    else if 100 * taken < 86 * seats then 160
    else if 100 * taken < 96 * seats then 200
    else 250
  }

  /** The bucket chosen from the rounded percentage is the one chosen by exact counting. */
  lemma DemandBucketIsExact(taken: nat, seats: nat)
    requires seats < CABIN_LIMIT
    ensures DemandMultiplier(Percentage(taken, seats)) == DemandByCount(taken, seats)
  {
    var occupancy := Percentage(taken, seats);
    hide LessThan, Percentage;
    DemandChain(occupancy);
    if seats == 0 {
      EmptyCabin(taken);
    } else {
      ComparisonIsExact(taken, seats, 31);
      ComparisonIsExact(taken, seats, 51);
      ComparisonIsExact(taken, seats, 71);
      ComparisonIsExact(taken, seats, 86);
      ComparisonIsExact(taken, seats, 96);
    }
  }

  lemma EmptyCabin(taken: nat)
    ensures LessThan(Percentage(taken, 0), 31)
  {
  }

  lemma DemandChain(occupancy: Decimal)
    ensures DemandMultiplier(occupancy) ==
            if LessThan(occupancy, 31) then 100
            else if LessThan(occupancy, 51) then 115
            else if LessThan(occupancy, 71) then 135
            else if LessThan(occupancy, 86) then 160
            else if LessThan(occupancy, 96) then 200
            else 250
  {
    hide LessThan;
    assert FirstDemand(4, occupancy) == if LessThan(occupancy, 96) then 200 else 250;
    assert FirstDemand(2, occupancy) ==
           if LessThan(occupancy, 71) then 135 else if LessThan(occupancy, 86) then 160 else FirstDemand(4, occupancy);
  }

  lemma TimeChain(daysBefore: nat)
    ensures TimeMultiplier(daysBefore) ==
            if daysBefore >= 60 then 85
            else if daysBefore >= 21 then 90
            else if daysBefore >= 7 then 100
            else if daysBefore >= 3 then 120
            else if daysBefore >= 1 then 150
            else 200
  {
    assert daysBefore < 3 ==> FirstTime(4, daysBefore) == if daysBefore >= 1 then 150 else 200;
    assert daysBefore < 21 ==>
      FirstTime(2, daysBefore) == if daysBefore >= 7 then 100 else if daysBefore >= 3 then 120 else FirstTime(4, daysBefore);
  }

  /** Without a net discount from seat surcharges, a fare of at least one dollar
      is charged a positive total at every occupancy, date and route. */
  lemma TotalIsPositive(b: PriceBreakdown, occupancy: Decimal, daysBefore: nat, day: DayOfWeek)
    requires b == Price(b.baseFare, occupancy, daysBefore, day, b.surcharges, b.taxes, b.fees)
    requires b.baseFare >= 100 && SurchargeSum(b.surcharges) >= 0 && b.taxes >= 0 && b.fees >= 0
    ensures Total(b) > 0
  {
    DemandChain(occupancy);
    TimeChain(daysBefore);
    ProductAtLeast(b.demand, b.time, 100, 85);
    ProductAtLeast(b.demand * b.time, b.day, 8500, 85);
    ProductAtLeast(b.baseFare, b.demand * b.time * b.day, 100, 722500);
    RoundTotalWithinHalf(RawTotal(b));
  }

  lemma ProductAtLeast(x: int, y: int, a: int, b: int)
    requires 0 <= a <= x && 0 <= b <= y
    ensures a * b <= x * y
  {
    Scale(a, x, b);
    assert (y - b) * x >= 0;
    assert x * y == x * b + x * (y - b);
  }

  /** The published examples for a 299.00 fare without extras: 0% occupied, 30 days
      ahead, a Tuesday, 228.74; 80%, 2 days, a Friday, 897.00; 98%, the day itself,
      a Sunday, 1944.00. */
  lemma WorkedExamples()
    ensures Total(Price(29900, Decimal(0, 0), 30, Tue, [], 0, 0)) == 22874
    ensures Total(Price(29900, Decimal(80, 0), 2, Fri, [], 0, 0)) == 89700
    ensures Total(Price(29900, Decimal(98, 0), 0, Sun, [], 0, 0)) == 194400
  {
    hide FirstDemand, FirstTime, RoundTotal;
    DemandChain(Decimal(0, 0));
    DemandChain(Decimal(80, 0));
    DemandChain(Decimal(98, 0));
    TimeChain(30);
    TimeChain(2);
    TimeChain(0);
    assert Pow10(0) == 1;
    RoundTotalAt(22873_500_000_000, 22874, CENT, 22874);
    RoundTotalAt(89700_000_000_000, 89700, UNIT, 897);
    RoundTotalAt(194350_000_000_000, 194400, UNIT, 1944);
  }

  /** The published surcharges in dollars; every other pair of class and kind is neutral. */
  lemma PublishedSurcharges(seatClass: SeatClass, kind: SeatKind)
    ensures LookupSeatSurcharge(seatClass, kind) ==
            100 * match (seatClass, kind)
                  case (Economy, ExitRow) => 35
                  case (Economy, FrontSection) => 25
                  case (Economy, Aisle) => 15
                  case (Economy, Window) => 15
                  case (Economy, Middle) => -5
                  case (Business, LieFlatSuite) => 200
                  case (Business, WindowSuite) => 100
                  case (Business, AisleAccess) => 75
                  case (First, PrivateSuite) => 500
                  case (First, FrontRow) => 150
                  case _ => 0
  {
  }
}
