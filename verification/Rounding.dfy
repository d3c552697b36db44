/** Half-even rounding (roundTiesToEven, section 4.3.1 of IEEE 754-2008) on
    integers, and the position at which a breakdown's total is rounded. */
module Rounding {
  import opened Entities

  const CENT: int := 1_000_000_000
  const TENTH: int := 10_000_000_000
  const UNIT: int := 100_000_000_000

  function Abs(x: int): int { if x < 0 then -x else x }

  /** x / step rounded to an integer, ties to the even one. */
  function HalfEven(x: int, step: int): int
    requires step > 0
  {
    var q, r := x / step, x % step;
    if 2 * r < step || (2 * r == step && q % 2 == 0) then q else q + 1
  }

  /** k is a nearest integer to x / step, and the even one when two are equally near. */
  ghost predicate NearestEven(x: int, step: int, k: int) {
    && 2 * Abs(x - k * step) <= step
    && (2 * Abs(x - k * step) == step ==> k % 2 == 0)
  }

  lemma {:induction false} ProductGap(m: int, k: int, step: int)
    requires step > 0 && m < k
    ensures m * step + step <= k * step
    ensures m + 1 < k ==> m * step + step < k * step
    decreases k - m
  {
    if m + 1 < k {
      ProductGap(m + 1, k, step);
    }
  }

  lemma NearestEvenOrdered(x: int, y: int, step: int, k: int, m: int)
    requires step > 0 && x <= y && NearestEven(x, step, k) && NearestEven(y, step, m)
    ensures k <= m
  {
    if k > m {
      ProductGap(m, k, step);
    }
  }

  /** HalfEven computes exactly roundTiesToEven. */
  lemma HalfEvenIsNearestEven(x: int, step: int, k: int)
    requires step > 0
    ensures HalfEven(x, step) == k <==> NearestEven(x, step, k)
  {
    var q, r := x / step, x % step;
    assert x == q * step + r;
    assert (q + 1) * step == q * step + step;
    assert NearestEven(x, step, HalfEven(x, step));
    if NearestEven(x, step, k) {
      NearestEvenOrdered(x, x, step, k, HalfEven(x, step));
      NearestEvenOrdered(x, x, step, HalfEven(x, step), k);
    }
  }

  lemma HalfEvenMonotone(x: int, y: int, step: int)
    requires step > 0 && x <= y
    ensures HalfEven(x, step) <= HalfEven(y, step)
  {
    var k, m := HalfEven(x, step), HalfEven(y, step);
    HalfEvenIsNearestEven(x, step, k);
    HalfEvenIsNearestEven(y, step, m);
    NearestEvenOrdered(x, y, step, k, m);
  }

  /** A multiple of the step is its own rounding. */
  lemma HalfEvenOfMultiple(k: int, step: int)
    requires step > 0
    ensures HalfEven(k * step, step) == k
  {
    HalfEvenIsNearestEven(k * step, step, k);
  }

  function Pow10(n: nat): (r: nat)
    ensures r > 0
  {
    if n == 0 then 1 else 10 * Pow10(n - 1)
  }

  lemma {:induction false} Pow10Add(a: nat, b: nat)
    ensures Pow10(a + b) == Pow10(a) * Pow10(b)
  {
    if a > 0 {
      Pow10Add(a - 1, b);
      assert Pow10(a + b) == 10 * (Pow10(a - 1) * Pow10(b)) == (10 * Pow10(a - 1)) * Pow10(b);
    }
  }

  /** The exponent of coeff * 10^exp once trailing zeros are stripped; zero normalizes to exponent 0. */
  function NormalExponent(coeff: int, exp: int): int
    decreases Abs(coeff)
  {
    if coeff == 0 then 0
    else if coeff % 10 == 0 then NormalExponent(coeff / 10, exp + 1)
    else exp
  }

  lemma {:induction false} NormalExponentDivides(coeff: int, exp: int, j: nat)
    requires coeff != 0
    ensures NormalExponent(coeff, exp) >= exp
    ensures NormalExponent(coeff, exp) >= exp + j <==> coeff % Pow10(j) == 0
    decreases Abs(coeff)
  {
    if coeff % 10 == 0 {
      NormalExponentDivides(coeff / 10, exp + 1, if j == 0 then 0 else j - 1);
    }
    if j > 0 {
      DivideByTen(coeff, Pow10(j - 1));
    }
  }

  lemma DivideByTen(c: int, p: int)
    requires p > 0
    ensures c % (10 * p) == 0 <==> c % 10 == 0 && (c / 10) % p == 0
  {
    if c % (10 * p) == 0 {
      var k := c / (10 * p);
      assert c == 10 * (p * k);
      assert c / 10 == p * k;
      MultipleModulo(p, k);
    }
    if c % 10 == 0 && (c / 10) % p == 0 {
      var k := (c / 10) / p;
      assert c == 10 * (p * k) == (10 * p) * k;
      MultipleModulo(10 * p, k);
    }
  }

  lemma MultipleModulo(p: int, k: int)
    requires p > 0
    ensures (p * k) % p == 0
  {
    var q := (p * k) / p;
    if q < k {
      ProductGap(q, k, p);
    } else if k < q {
      ProductGap(k, q, p);
    }
  }

  /** The grid on which a raw amount is rounded: one position coarser than its
      last non-zero fractional digit, never finer than a cent. */
  function RoundingStep(raw: Raw): (step: int)
    ensures step in {UNIT, TENTH, CENT}
  {
    var exponent := NormalExponent(raw, -11);
    if exponent < -2 then CENT
    else if exponent < 0 then (if exponent == -1 then UNIT else TENTH)
    else UNIT
  }

  function RoundHalfEvenToPriorDigit(raw: Raw): Raw {
    var step := RoundingStep(raw);
    HalfEven(raw, step) * step
  }

  function Quantize(raw: Raw): Cents {
    HalfEven(raw, CENT)
  }

  /** What is charged for a raw amount. */
  function RoundTotal(raw: Raw): Cents {
    Quantize(RoundHalfEvenToPriorDigit(raw))
  }

  /** The step chosen from the stripped exponent, told by divisibility alone. */
  lemma StepByDivisibility(raw: Raw)
    ensures RoundingStep(raw) ==
            if raw % TENTH == 0 then UNIT else if raw % CENT == 0 then TENTH else CENT
  {
    if raw != 0 {
      assert Pow10(9) == CENT && Pow10(10) == TENTH by { PowersUsed(); }
      NormalExponentDivides(raw, -11, 9);
      NormalExponentDivides(raw, -11, 10);
    }
  }

  lemma PowersUsed()
    ensures Pow10(9) == CENT && Pow10(10) == TENTH
  {
    assert Pow10(3) == 1000;
    assert Pow10(6) == 1_000_000 by { Pow10Add(3, 3); }
    assert Pow10(9) == CENT by { Pow10Add(6, 3); }
  }

  /** The second quantization, to cents, never changes the value. */
  lemma SecondQuantizeIsExact(raw: Raw)
    ensures RoundTotal(raw) * CENT == RoundHalfEvenToPriorDigit(raw)
  {
    var k := HalfEven(raw, RoundingStep(raw));
    if RoundingStep(raw) == UNIT {
      HalfEvenOfMultiple(100 * k, CENT);
    } else if RoundingStep(raw) == TENTH {
      HalfEvenOfMultiple(10 * k, CENT);
    } else {
      HalfEvenOfMultiple(k, CENT);
    }
  }

  /** The charged total is roundTiesToEven of the raw amount on the grid of its step. */
  lemma RoundTotalIsTiesToEven(raw: Raw, k: int)
    ensures RoundTotal(raw) * CENT == k * RoundingStep(raw) <==> NearestEven(raw, RoundingStep(raw), k)
  {
    SecondQuantizeIsExact(raw);
    HalfEvenIsNearestEven(raw, RoundingStep(raw), k);
    var m := HalfEven(raw, RoundingStep(raw));
    if m < k {
      ProductGap(m, k, RoundingStep(raw));
    } else if k < m {
      ProductGap(k, m, RoundingStep(raw));
    }
  }

  /** Exactly whole dollars are charged as they are; the error is at most 0.50, 0.05
      and 0.005 for exactly one, exactly two and more fractional digits. */
  lemma RoundTotalError(raw: Raw)
    ensures RoundTotal(raw) * CENT == raw <==> raw % UNIT == 0
    ensures Abs(RoundTotal(raw) * CENT - raw) <=
            if raw % TENTH == 0 then UNIT / 2 else if raw % CENT == 0 then TENTH / 2 else CENT / 2
  {
    hide HalfEven, RoundTotal, RoundingStep, RoundHalfEvenToPriorDigit;
    var step := RoundingStep(raw);
    var k := HalfEven(raw, step);
    StepByDivisibility(raw);
    HalfEvenIsNearestEven(raw, step, k);
    RoundTotalIsTiesToEven(raw, k);
    if raw % UNIT == 0 {
      WholeDollars(raw);
    } else if RoundTotal(raw) * CENT == raw {
      OnItsGrid(raw, k);
    }
  }

  /** Only whole dollars lie on their own grid. */
  lemma OnItsGrid(raw: Raw, k: int)
    requires raw == k * RoundingStep(raw)
    ensures raw % UNIT == 0
  {
    StepByDivisibility(raw);
    MultipleModulo(RoundingStep(raw), k);
  }

  /** The rule of rounding everything to cents agrees with the one in force exactly
      on whole dollars and on amounts with more than two fractional digits. */
  lemma CentRuleAgrees(raw: Raw)
    ensures RoundTotal(raw) == Quantize(raw) <==> raw % UNIT == 0 || raw % CENT != 0
  {
    hide RoundingStep, HalfEven;
    StepByDivisibility(raw);
    RoundTotalError(raw);
    if raw % CENT == 0 {
      HalfEvenOfMultiple(raw / CENT, CENT);
    } else {
      MultipleModulo(CENT, 10 * (raw / TENTH));
      SecondQuantizeIsExact(raw);
      assert RoundTotal(raw) * CENT == Quantize(raw) * CENT;
    }
  }

  lemma WholeDollars(raw: Raw)
    requires raw % UNIT == 0
    ensures RoundTotal(raw) * CENT == raw
  {
    hide HalfEven, RoundTotal, RoundingStep, RoundHalfEvenToPriorDigit;
    MultipleModulo(TENTH, 10 * (raw / UNIT));
    StepByDivisibility(raw);
    RoundTotalIsTiesToEven(raw, raw / UNIT);
  }

  /** Amounts with the same rounding step are rounded monotonically. */
  lemma RoundTotalMonotoneOnAStep(x: Raw, y: Raw)
    requires x <= y && RoundingStep(x) == RoundingStep(y)
    ensures RoundTotal(x) <= RoundTotal(y)
  {
    HalfEvenMonotone(x, y, RoundingStep(x));
    SecondQuantizeIsExact(x);
    SecondQuantizeIsExact(y);
  }

  /** A multiple of the step bounds the rounding from both sides. */
  lemma GridBounds(x: Raw, g: Raw)
    requires g % RoundingStep(x) == 0
    ensures x <= g ==> RoundTotal(x) * CENT <= g
    ensures g <= x ==> g <= RoundTotal(x) * CENT
  {
    var step := RoundingStep(x);
    var k := g / step;
    assert g == k * step;
    HalfEvenOfMultiple(k, step);
    SecondQuantizeIsExact(x);
    if x <= g { HalfEvenMonotone(x, g, step); }
    if g <= x { HalfEvenMonotone(g, x, step); }
  }

  lemma RoundTotalWithinHalf(raw: Raw)
    ensures raw - 50 * CENT <= RoundTotal(raw) * CENT <= raw + 50 * CENT
  {
    RoundTotalError(raw);
  }

  /** Of two different steps, one amount lies on the grid of the other. */
  lemma OneOnTheOthersGrid(x: Raw, y: Raw)
    requires RoundingStep(x) != RoundingStep(y)
    ensures x % RoundingStep(y) == 0 || y % RoundingStep(x) == 0
  {
    StepByDivisibility(x);
    StepByDivisibility(y);
    forall z | z % TENTH == 0 ensures z % CENT == 0 {
      MultipleModulo(CENT, 10 * (z / TENTH));
    }
  }

  /** An amount is charged more than an even multiple of its step exactly when it
      lies more than half a step above it, and less likewise. */
  lemma AgainstEvenMultiple(x: Raw, m: int)
    requires m % 2 == 0
    ensures var step := RoundingStep(x); var g := m * step;
            && (RoundTotal(x) * CENT > g <==> 2 * (x - g) > step)
            && (RoundTotal(x) * CENT < g <==> 2 * (g - x) > step)
  {
    hide RoundingStep, HalfEven, RoundTotal;
    var step := RoundingStep(x);
    var k := HalfEven(x, step);
    HalfEvenIsNearestEven(x, step, k);
    RoundTotalIsTiesToEven(x, k);
    if m < k {
      ProductGap(m, k, step);
    } else if k < m {
      ProductGap(k, m, step);
    }
  }

  /** The amount goes to the multiple of its step at or below it. */
  predicate RoundsDown(x: Raw) {
    var step := RoundingStep(x);
    2 * (x % step) < step || (2 * (x % step) == step && (x / step) % 2 == 0)
  }

  lemma RoundedEitherWay(x: Raw)
    ensures var step := RoundingStep(x);
            RoundTotal(x) * CENT == if RoundsDown(x) then x - x % step else x - x % step + step
  {
    SecondQuantizeIsExact(x);
    var step := RoundingStep(x);
    assert (x / step + 1) * step == x / step * step + step;
  }

  /** A multiple of a coarser step is an even multiple of a finer one. */
  lemma CoarserMultiple(fine: int, coarse: int, k: int) returns (m: int)
    requires fine in {UNIT, TENTH, CENT} && coarse in {UNIT, TENTH, CENT} && fine < coarse
    ensures m % 2 == 0 && m * fine == k * coarse
  {
    if coarse == 10 * fine {
      m := 2 * (5 * k);
    } else {
      m := 2 * (50 * k);
    }
  }

  /** The larger of two amounts is charged less exactly in two cases: it has the fewer
      digits and is rounded down past the other by more than half the other's step,
      or the smaller one has the fewer digits and is rounded up past it likewise. */
  lemma RoundTotalInverted(x: Raw, y: Raw)
    requires x <= y
    ensures var p, q := RoundingStep(x), RoundingStep(y);
            RoundTotal(x) > RoundTotal(y) <==>
            || (p < q && RoundsDown(y) && 2 * (x - (y - y % q)) > p)
            || (q < p && !RoundsDown(x) && 2 * (x - x % p + p - y) > q)
  {
    hide RoundingStep, RoundTotal, HalfEven, RoundsDown;
    var p, q := RoundingStep(x), RoundingStep(y);
    RoundedEitherWay(x);
    RoundedEitherWay(y);
    if p == q {
      RoundTotalMonotoneOnAStep(x, y);
    } else if p < q {
      var k := if RoundsDown(y) then y / q else y / q + 1;
      var m := CoarserMultiple(p, q, k);
      assert k * q == RoundTotal(y) * CENT by { assert (y / q + 1) * q == y / q * q + q; }
      AgainstEvenMultiple(x, m);
    } else {
      var k := if RoundsDown(x) then x / p else x / p + 1;
      var m := CoarserMultiple(q, p, k);
      assert k * p == RoundTotal(x) * CENT by { assert (x / p + 1) * p == x / p * p + p; }
      AgainstEvenMultiple(y, m);
    }
  }

  /** A larger raw amount can be charged less, but by no more than 0.50. */
  lemma RoundTotalDropBounded(x: Raw, y: Raw)
    requires x <= y
    ensures RoundTotal(x) - RoundTotal(y) <= 50
  {
    if RoundingStep(x) == RoundingStep(y) {
      RoundTotalMonotoneOnAStep(x, y);
    } else {
      OneOnTheOthersGrid(x, y);
      RoundTotalWithinHalf(x);
      RoundTotalWithinHalf(y);
      if y % RoundingStep(x) == 0 {
        GridBounds(x, y);
      } else {
        GridBounds(y, x);
      }
    }
  }

  /** The total of a raw amount, from its divisibility and its nearest even multiple. */
  lemma RoundTotalAt(raw: Raw, total: Cents, step: int, k: int)
    requires step == if raw % TENTH == 0 then UNIT else if raw % CENT == 0 then TENTH else CENT
    requires total * CENT == k * step && NearestEven(raw, step, k)
    ensures RoundTotal(raw) == total
  {
    hide RoundTotal, RoundingStep;
    StepByDivisibility(raw);
    RoundTotalIsTiesToEven(raw, k);
  }

  /** Rounding is not monotone, and the bound of 0.50 is reached: 1.50 is charged
      2.00 and 1.51 is charged 1.50. At cent precision 228.735 is charged 228.74
      while the larger 228.74 is charged 228.70. */
  lemma RoundTotalNotMonotone()
    ensures RoundTotal(150 * CENT) == 200 && RoundTotal(151 * CENT) == 150
    ensures RoundTotal(22873_500_000_000) == 22874 && RoundTotal(22874_000_000_000) == 22870
  {
    hide RoundTotal;
    RoundTotalAt(150 * CENT, 200, UNIT, 2);
    RoundTotalAt(151 * CENT, 150, TENTH, 15);
    RoundTotalAt(22873_500_000_000, 22874, CENT, 22874);
    RoundTotalAt(22874_000_000_000, 22870, TENTH, 2287);
  }

  /** A positive raw amount is charged a positive total unless it is one of the
      ten amounts 0.01..0.05, 0.10..0.50 or lies in (0, 0.005]. */
  lemma RoundTotalPositive(raw: Raw)
    ensures RoundTotal(raw) > 0 <==>
            && raw > 0
            && !(raw % TENTH == 0 && raw <= UNIT / 2)
            && !(raw % CENT == 0 && raw <= TENTH / 2)
            && raw > CENT / 2
  {
    StepByDivisibility(raw);
    SecondQuantizeIsExact(raw);
    HalfEvenIsNearestEven(raw, RoundingStep(raw), HalfEven(raw, RoundingStep(raw)));
  }
}
