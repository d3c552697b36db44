/** The total of a price breakdown, and what a reader can rebuild of it from the
    breakdown shown on the wire. */
module Breakdown {
  import opened Entities
  import opened Rounding

  function SurchargeSum(lines: seq<SurchargeLine>): Cents {
    if lines == [] then 0 else SurchargeSum(lines[..|lines| - 1]) + lines[|lines| - 1].amount
  }

  /** fare * demand * time * day, in units of 10^-11 dollars. */
  function MultipliedFare(fare: Cents, demand: int, time: int, day: int): Raw {
    fare * (demand * time * day) * 1000
  }

  function RawTotal(b: PriceBreakdown): Raw {
    MultipliedFare(b.baseFare, b.demand, b.time, b.day) + SurchargeSum(b.surcharges) * CENT + b.taxes + b.fees
  }

  function Total(b: PriceBreakdown): Cents {
    RoundTotal(RawTotal(b))
  }

  /** The raw sum in dollars: fare times the three multipliers, plus surcharges, taxes and fees. */
  lemma RawTotalInDollars(b: PriceBreakdown)
    ensures RawTotal(b) as real / 100_000_000_000.0 ==
            (b.baseFare as real / 100.0) * ((b.demand as real / 100.0) * (b.time as real / 100.0) * (b.day as real / 100.0))
            + SurchargeSum(b.surcharges) as real / 100.0 + b.taxes as real / 100_000_000_000.0 + b.fees as real / 100_000_000_000.0
  {
    ProductAsReal(b.demand, b.time);
    ProductAsReal(b.demand * b.time, b.day);
    ProductAsReal(b.baseFare, b.demand * b.time * b.day);
    HundredthsProduct(b.baseFare as real, b.demand as real, b.time as real, b.day as real);
  }

  lemma ProductAsReal(x: int, y: int)
    ensures (x * y) as real == x as real * y as real
  {
  }

  lemma HundredthsProduct(f: real, d: real, t: real, w: real)
    ensures f / 100.0 * (d / 100.0 * (t / 100.0) * (w / 100.0)) == f * (d * t * w) / 100_000_000.0
  {
    assert d / 100.0 * (t / 100.0) == d * t / 10_000.0;
    assert d * t / 10_000.0 * (w / 100.0) == d * t * w / 1_000_000.0;
  }

  /** Surcharges add up, list by list. */
  lemma {:induction false} SurchargeSumAppend(a: seq<SurchargeLine>, b: seq<SurchargeLine>)
    ensures SurchargeSum(a + b) == SurchargeSum(a) + SurchargeSum(b)
  {
    if b == [] {
      assert a + b == a;
    } else {
      SurchargeSumAppend(a, b[..|b| - 1]);
      assert (a + b)[..|a + b| - 1] == a + b[..|b| - 1];
    }
  }

  method ComputeTotal(b: PriceBreakdown) returns (total: Cents)
    ensures total == Total(b)
  {
    var raw := MultipliedFare(b.baseFare, b.demand, b.time, b.day);
    for i := 0 to |b.surcharges|
      invariant raw == MultipliedFare(b.baseFare, b.demand, b.time, b.day) + SurchargeSum(b.surcharges[..i]) * CENT
    {
      assert b.surcharges[..i + 1][..i] == b.surcharges[..i];
      raw := raw + b.surcharges[i].amount * CENT;
    }
    assert b.surcharges[..|b.surcharges|] == b.surcharges;
    raw := raw + b.taxes;
    raw := raw + b.fees;
    var rounded := RoundHalfEvenToPriorDigit(raw);
    total := Quantize(rounded);
  }

  /** The breakdown as displayed: taxes and fees rounded to cents. */
  function Displayed(b: PriceBreakdown): PriceBreakdown {
    b.(taxes := Quantize(b.taxes) * CENT, fees := Quantize(b.fees) * CENT)
  }

  /** Displaying moves the raw sum by at most half a cent when fees are whole cents. */
  lemma DisplayShift(b: PriceBreakdown)
    requires b.fees % CENT == 0
    ensures Abs(RawTotal(Displayed(b)) - RawTotal(b)) <= CENT / 2
    ensures RawTotal(Displayed(b)) - RawTotal(b) == Quantize(b.taxes) * CENT - b.taxes
  {
    HalfEvenIsNearestEven(b.taxes, CENT, Quantize(b.taxes));
    HalfEvenOfMultiple(b.fees / CENT, CENT);
  }

  lemma FineStep(x: Raw)
    requires x % CENT != 0
    ensures RoundingStep(x) == CENT
    ensures Abs(RoundTotal(x) * CENT - x) <= CENT / 2
  {
    StepByDivisibility(x);
    if x % TENTH == 0 {
      MultipleModulo(CENT, 10 * (x / TENTH));
    }
    RoundTotalError(x);
  }

  /** x has more than two fractional digits, z at most two, and they differ by at most
      half a cent: their totals are within a cent of each other. */
  predicate WithinACent(x: Raw, z: Raw) {
    var c := z / CENT;
    c % 100 == 0 || (c % 10 == 1 && x - z != CENT / 2) || (c % 10 == 9 && z - x != CENT / 2)
  }

  /** An amount with more than two digits within half a cent of c cents is charged c
      cents, or, halfway and with c odd, the cent on its side. */
  lemma FineNearCents(x: Raw, c: int)
    requires x % CENT != 0 && Abs(x - c * CENT) <= CENT / 2
    ensures RoundTotal(x) == if c % 2 == 0 || Abs(x - c * CENT) < CENT / 2 then c
                             else if x > c * CENT then c + 1 else c - 1
  {
    hide RoundTotal, RoundingStep;
    FineStep(x);
    RoundTotalIsTiesToEven(x, c);
    RoundTotalIsTiesToEven(x, c + 1);
    RoundTotalIsTiesToEven(x, c - 1);
  }

  /** The multiple of the step that an amount is charged. */
  lemma ChargedMultiple(x: Raw) returns (k: int)
    ensures RoundTotal(x) * CENT == k * RoundingStep(x) && NearestEven(x, RoundingStep(x), k)
  {
    hide RoundTotal, RoundingStep, HalfEven;
    k := HalfEven(x, RoundingStep(x));
    HalfEvenIsNearestEven(x, RoundingStep(x), k);
    RoundTotalIsTiesToEven(x, k);
  }

  lemma CoarseStep(c: int)
    ensures RoundingStep(c * CENT) == if c % 10 == 0 then UNIT else TENTH
  {
    hide RoundingStep;
    StepByDivisibility(c * CENT);
    RemainderOf(c * CENT, CENT, c, 0);
    RemainderOf(c * CENT, TENTH, c / 10, c % 10 * CENT);
  }

  lemma RemainderOf(x: int, d: int, q: int, r: int)
    requires 0 <= r < d && x == q * d + r
    ensures x % d == r
  {
    var k := x / d;
    if q < k {
      ProductGap(q, k, d);
    } else if k < q {
      ProductGap(k, q, d);
    }
  }

  /** A whole number of cents is charged as a whole number of dollars when it ends in
      the digit 0, and otherwise as one of the multiples of ten cents next to it. */
  lemma CoarseNearCents(c: int)
    ensures var total := RoundTotal(c * CENT);
            && (c % 10 != 0 ==> total % 10 == 0 && Abs(total - c) <= 5)
            && (c % 10 == 0 ==> total % 100 == 0)
  {
    hide RoundTotal, RoundingStep, NearestEven;
    CoarseStep(c);
    var k := ChargedMultiple(c * CENT);
    if c % 10 == 0 {
      WholeDollarTotal(RoundTotal(c * CENT), k);
    } else {
      TenCentTotal(RoundTotal(c * CENT), k);
      NearTens(c, k);
    }
  }

  lemma WholeDollarTotal(total: Cents, k: int)
    requires total * CENT == k * UNIT
    ensures total % 100 == 0
  {
    assert total == 100 * k;
  }

  lemma TenCentTotal(total: Cents, k: int)
    requires total * CENT == k * TENTH
    ensures total == 10 * k
  {
  }

  lemma NearTens(c: int, k: int)
    requires NearestEven(c * CENT, TENTH, k)
    ensures Abs(10 * k - c) <= 5
  {
  }

  lemma WholeDollarCents(c: int)
    requires c % 100 == 0
    ensures RoundTotal(c * CENT) == c
  {
    hide RoundTotal;
    RemainderOf(c * CENT, UNIT, c / 100, 0);
    RoundTotalError(c * CENT);
  }

  /** A multiple of ten within five. */
  lemma NextTens(c: int, total: int)
    requires total % 10 == 0 && Abs(total - c) <= 5
    ensures total == c - c % 10 || total == c - c % 10 + 10
  {
  }

  /** How far the charge c + d of the fine amount is from the charge of c cents. */
  lemma CentsApart(c: int, d: int)
    requires -1 <= d <= 1 && (d != 0 ==> c % 2 == 1)
    ensures Abs(c + d - RoundTotal(c * CENT)) <= 1 <==> c % 100 == 0 || (c % 10 == 1 && d != 1) || (c % 10 == 9 && d != -1)
    ensures Abs(c + d - RoundTotal(c * CENT)) <= 50
  {
    hide RoundTotal;
    CoarseNearCents(c);
    if c % 100 == 0 {
      WholeDollarCents(c);
    } else if c % 10 == 0 {
      RoundTotalWithinHalf(c * CENT);
      DollarsAway(c, RoundTotal(c * CENT));
    } else {
      NextTens(c, RoundTotal(c * CENT));
    }
  }

  lemma DollarsAway(c: int, total: int)
    requires c % 10 == 0 && c % 100 != 0 && total % 100 == 0
    ensures Abs(c - total) >= 10
  {
    var a, b := c / 10, total / 100;
    if a == 10 * b {
      RemainderOf(c, 100, b, 0);
    }
  }

  lemma FineAgainstCoarse(x: Raw, z: Raw)
    requires x % CENT != 0 && z % CENT == 0 && Abs(x - z) <= CENT / 2
    ensures Abs(RoundTotal(x) - RoundTotal(z)) <= 50
    ensures Abs(RoundTotal(x) - RoundTotal(z)) <= 1 <==> WithinACent(x, z)
  {
    hide RoundTotal;
    var c := z / CENT;
    assert z == c * CENT;
    FineNearCents(x, c);
    CentsApart(c, RoundTotal(x) - c);
  }

  lemma CoarseEqual(x: Raw, y: Raw)
    requires x % CENT == 0 && y % CENT == 0 && Abs(x - y) <= CENT / 2
    ensures x == y
  {
    assert x - y == (x / CENT - y / CENT) * CENT;
  }

  /** Adding up the displayed breakdown gives the charged total when neither raw sum
      has more than two fractional digits, and comes within a cent of it when both
      have. When only one has, the totals are at most 0.50 apart, and within a cent
      exactly when the other is a whole number of dollars, or ends in the digit 1 or
      9 without the first lying half a cent further from the ten cents next to it. */
  lemma RebuiltTotal(b: PriceBreakdown)
    requires b.fees % CENT == 0
    ensures var charged, rebuilt := Total(b), Total(Displayed(b));
            var x, z := RawTotal(b), RawTotal(Displayed(b));
            && (x % CENT == 0 && z % CENT == 0 ==> rebuilt == charged)
            && (Abs(rebuilt - charged) <= 1 <==>
                  if x % CENT != 0 && z % CENT == 0 then WithinACent(x, z)
                  else if x % CENT == 0 && z % CENT != 0 then WithinACent(z, x)
                  else true)
            && Abs(rebuilt - charged) <= 50
  {
    hide RoundTotal, Displayed, RawTotal;
    var x, z := RawTotal(b), RawTotal(Displayed(b));
    DisplayShift(b);
    if x % CENT == 0 && z % CENT == 0 {
      CoarseEqual(x, z);
    } else if x % CENT != 0 && z % CENT != 0 {
      FineStep(x);
      FineStep(z);
    } else if x % CENT != 0 {
      FineAgainstCoarse(x, z);
    } else {
      FineAgainstCoarse(z, x);
    }
  }

  /** One cent is not a bound: a domestic 200.10 on a Monday is charged 193.60 and
      rebuilds to 194.00; an international 1.00 at 2.50 and 1.25 is charged 4.00
      and rebuilds to 3.50, so the bound of 0.50 is reached. */
  lemma RebuiltTotalGap()
    ensures var b := PriceBreakdown(20010, 100, 100, 90, [], MultipliedFare(20010, 100, 100, 90) / 1000 * 75, 0);
            Total(b) == 19360 && Total(Displayed(b)) == 19400
    ensures var b := PriceBreakdown(100, 250, 100, 125, [], MultipliedFare(100, 250, 100, 125) / 1000 * 120, 0);
            Total(b) == 400 && Total(Displayed(b)) == 350
  {
    hide RoundTotal;
    assert MultipliedFare(20010, 100, 100, 90) == 18009_000_000_000;
    assert Quantize(1350_675_000_000) == 1351;
    RoundTotalAt(19359_675_000_000, 19360, CENT, 19360);
    RoundTotalAt(19360_000_000_000, 19400, UNIT, 194);
    assert MultipliedFare(100, 250, 100, 125) == 312_500_000_000;
    assert Quantize(37_500_000_000) == 38;
    RoundTotalAt(350_000_000_000, 400, UNIT, 4);
    RoundTotalAt(350_500_000_000, 350, CENT, 350);
  }
}
