/** Occupancy as the program computes it: a quotient rounded to the 28
    significant digits of the default decimal context, times 100. */
module Occupancy {
  import opened Entities
  import opened Rounding

  /** How many times num must be multiplied by ten to reach floor * den. */
  function ScaleUp(num: nat, den: nat, floor: nat): (up: nat)
    requires num > 0 && den > 0
    ensures num * Pow10(up) >= floor * den
    ensures up == 0 ==> num >= floor * den
    decreases floor * den - num
  {
    if num >= floor * den then 0
    else
      var up := 1 + ScaleUp(10 * num, den, floor);
      assert num * Pow10(up) == 10 * num * Pow10(up - 1);
      up
  }

  function ScaleDown(num: nat, den: nat, ceiling: nat): (down: nat)
    requires den > 0 && ceiling > 0
    ensures down > 0 ==> num >= ceiling * (den * Pow10(down - 1))
    decreases num - ceiling * den
  {
    if num < ceiling * den then 0
    else
      assert ceiling * (10 * den) == 10 * (ceiling * den);
      assert ceiling * den > 0;
      var down := 1 + ScaleDown(num, 10 * den, ceiling);
      assert down > 1 ==> 10 * den * Pow10(down - 2) == den * Pow10(down - 1);
      down
  }

  function Coefficient(num: nat, den: nat): nat
    requires den > 0
  {
    HalfEven(num, den)
  }

  const PRECISION: nat := 28

  /** Twice 10^26: up to here 28 digits tell every quotient from every whole percentage. */
  const CABIN_LIMIT: nat := 200_000_000_000_000_000_000_000_000

  /** num / den rounded half-even to 28 significant digits. */
  function Quotient(num: nat, den: nat): Decimal
    requires den > 0
  {
    if num == 0 then Decimal(0, 0)
    else
      var up := ScaleUp(num, den, Pow10(PRECISION - 1));
      if up > 0 then Decimal(Coefficient(num * Pow10(up), den), -(up as int))
      else
        var down := ScaleDown(num, den, Pow10(PRECISION));
        Decimal(Coefficient(num, den * Pow10(down)), down)
  }

  /** The comparison of a decimal with a whole number is exact. */
  predicate LessThan(d: Decimal, bound: nat) {
    if d.exp >= 0 then d.coeff * Pow10(d.exp) < bound
    else d.coeff < bound * Pow10(-d.exp)
  }

  /** taken / seats * 100; an empty cabin is not occupied. */
  function Percentage(taken: nat, seats: nat): Decimal {
    if seats == 0 then Decimal(0, 0)
    else var q := Quotient(taken, seats); Decimal(q.coeff, q.exp + 2)
  }

  lemma Scale(a: int, b: int, c: int)
    requires a <= b && c >= 0
    ensures a * c <= b * c
  {
    assert (b - a) * c >= 0;
  }

  lemma HalfEvenAtLeast(x: int, k: int, step: int)
    requires step > 0 && k * step <= x
    ensures k <= HalfEven(x, step)
  {
    HalfEvenOfMultiple(k, step);
    HalfEvenMonotone(k * step, x, step);
  }

  /** Well below k steps, rounding stays below k. */
  lemma HalfEvenBelow(x: int, k: int, step: int, margin: int)
    requires step > 0 && x <= k * step - margin && step < 2 * margin
    ensures HalfEven(x, step) < k
  {
    var r := HalfEven(x, step);
    HalfEvenIsNearestEven(x, step, r);
    if k <= r {
      Scale(k, r, step);
    }
  }

  lemma {:induction false} ScaleUpTight(num: nat, den: nat, floor: nat)
    requires num > 0 && den > 0
    ensures ScaleUp(num, den, floor) > 0 ==> num * Pow10(ScaleUp(num, den, floor)) < 10 * (floor * den)
    decreases floor * den - num
  {
    if num < floor * den {
      ScaleUpTight(10 * num, den, floor);
      var up := ScaleUp(10 * num, den, floor);
      assert num * Pow10(up + 1) == 10 * num * Pow10(up);
    }
  }

  lemma {:induction false} ScaleDownTight(num: nat, den: nat, ceiling: nat)
    requires den > 0 && ceiling > 0
    ensures num < ceiling * (den * Pow10(ScaleDown(num, den, ceiling)))
    decreases num - ceiling * den
  {
    if num >= ceiling * den {
      assert ceiling * (10 * den) == 10 * (ceiling * den);
      assert ceiling * den > 0;
      ScaleDownTight(num, 10 * den, ceiling);
      var down := ScaleDown(num, 10 * den, ceiling);
      assert den * Pow10(down + 1) == 10 * den * Pow10(down);
    }
  }

  lemma HalfEvenAtMost(x: int, k: int, step: int)
    requires step > 0 && x <= k * step
    ensures HalfEven(x, step) <= k
  {
    HalfEvenOfMultiple(k, step);
    HalfEvenMonotone(x, k * step, step);
  }

  lemma RoundedBetween(x: int, step: int, lo: int, hi: int)
    requires step > 0 && lo * step <= x <= hi * step
    ensures NearestEven(x, step, HalfEven(x, step)) && lo <= HalfEven(x, step) <= hi
  {
    HalfEvenIsNearestEven(x, step, HalfEven(x, step));
    HalfEvenAtLeast(x, lo, step);
    HalfEvenAtMost(x, hi, step);
  }

  lemma ScaledUpBounds(num: nat, den: nat, floor: nat, up: nat)
    requires num > 0 && den > 0 && up == ScaleUp(num, den, floor) && up > 0
    ensures floor * den <= num * Pow10(up) <= 10 * floor * den
  {
    hide Pow10;
    ScaleUpTight(num, den, floor);
    assert 10 * (floor * den) == 10 * floor * den;
  }

  lemma ScaledDownBounds(num: nat, den: nat, floor: nat, down: nat)
    requires den > 0 && floor > 0 && num >= floor * den && down == ScaleDown(num, den, 10 * floor)
    ensures floor * (den * Pow10(down)) <= num <= 10 * floor * (den * Pow10(down))
  {
    hide Pow10;
    ScaleDownTight(num, den, 10 * floor);
    PowerFacts(down);
    if down > 0 {
      var d := den * Pow10(down - 1);
      assert den * Pow10(down) == 10 * d;
      assert floor * (10 * d) == 10 * floor * d;
    } else {
      assert den * Pow10(down) == den;
    }
  }

  /** The quotient is the exact one rounded to the nearest decimal of 28 digits, ties to even. */
  lemma QuotientIsCorrectlyRounded(num: nat, den: nat)
    requires num > 0 && den > 0
    ensures var q := Quotient(num, den);
            && Pow10(27) <= q.coeff <= Pow10(28)
            && (if q.exp < 0 then NearestEven(num * Pow10(-q.exp), den, q.coeff)
                else NearestEven(num, den * Pow10(q.exp), q.coeff))
  {
    hide Pow10, HalfEven, NearestEven, ScaleUp, ScaleDown;
    PowerFacts(28);
    var up := ScaleUp(num, den, Pow10(27));
    if up > 0 {
      ScaledUpBounds(num, den, Pow10(27), up);
      RoundedBetween(num * Pow10(up), den, Pow10(27), Pow10(28));
    } else {
      var down := ScaleDown(num, den, Pow10(28));
      ScaledDownBounds(num, den, Pow10(27), down);
      RoundedBetween(num, den * Pow10(down), Pow10(27), Pow10(28));
    }
  }

  lemma {:induction false} Pow10Ordered(a: nat, b: nat)
    requires a <= b
    ensures Pow10(a) <= Pow10(b)
  {
    if a < b {
      Pow10Ordered(a, b - 1);
    }
  }

  lemma PowerFacts(n: nat)
    ensures n > 0 ==> Pow10(n) == 10 * Pow10(n - 1)
    ensures Pow10(0) == 1 && Pow10(PRECISION - 1) >= 1 && Pow10(PRECISION) >= 10
  {
  }

  lemma ScaledDenominatorFits(taken: nat, seats: nat, down: nat)
    requires seats > 0 && taken >= seats * Pow10(PRECISION - 1)
    requires down > 0 ==> taken >= Pow10(PRECISION) * (seats * Pow10(down - 1))
    ensures seats * Pow10(down) <= taken
  {
    hide Pow10;
    PowerFacts(down);
    if down > 0 {
      var d := seats * Pow10(down - 1);
      assert seats * Pow10(down) == 10 * d;
      Scale(10, Pow10(PRECISION), d);
    } else {
      Scale(1, Pow10(PRECISION - 1), seats);
    }
  }

  lemma ManyDigits(c: nat, down: nat, bound: nat)
    requires c >= 1 && bound <= 100
    ensures !LessThan(Decimal(c, down + 2), bound)
  {
    var p := Pow10(down);
    assert Pow10(down + 2) == 10 * Pow10(down + 1) == 100 * p;
    Scale(1, c, 100 * p);
  }

  /** A quotient of at least one is at least 100 percent. */
  lemma FullOrMore(taken: nat, seats: nat, bound: nat)
    requires seats > 0 && taken >= seats * Pow10(PRECISION - 1) && bound <= 100
    ensures !LessThan(Percentage(taken, seats), bound) && 100 * taken >= bound * seats
  {
    hide Pow10, HalfEven, ScaleDown, ScaleUp, LessThan;
    PowerFacts(PRECISION);
    Scale(1, Pow10(PRECISION - 1), seats);
    Scale(bound, 100, seats);
    NotScaledUp(taken, seats, Pow10(PRECISION - 1));
    var down := ScaleDown(taken, seats, Pow10(PRECISION));
    ScaledDenominatorFits(taken, seats, down);
    Scale(1, seats, Pow10(down));
    HalfEvenAtLeast(taken, 1, seats * Pow10(down));
    ManyDigits(HalfEven(taken, seats * Pow10(down)), down, bound);
  }

  lemma NotScaledUp(num: nat, den: nat, floor: nat)
    requires num > 0 && den > 0 && num >= floor * den
    ensures ScaleUp(num, den, floor) == 0
  {
  }

  /** The scaled-up case with scale 10^(2+e): the quotient's coefficient against bound * 10^e. */
  lemma ScaledComparison(taken: nat, seats: nat, bound: nat, e: nat)
    requires 0 < seats && bound <= 100
    requires 100 * taken < bound * seats ==> seats < 2 * Pow10(e)
    ensures HalfEven(taken * Pow10(e + 2), seats) < bound * Pow10(e) <==> 100 * taken < bound * seats
  {
    var p, num := Pow10(e), taken * Pow10(e + 2);
    assert Pow10(e + 2) == 10 * Pow10(e + 1) == 100 * p;
    assert num == 100 * taken * p;
    assert bound * seats * p == (bound * p) * seats;
    if 100 * taken < bound * seats {
      Scale(100 * taken, bound * seats - 1, p);
      assert (bound * seats - 1) * p == bound * seats * p - p;
      HalfEvenBelow(num, bound * p, seats, p);
    } else {
      Scale(bound * seats, 100 * taken, p);
      HalfEvenAtLeast(num, bound * p, seats);
    }
  }

  /** Below the bound, the scale that yields 28 digits exceeds 10^27. */
  lemma ScaleIsLarge(taken: nat, seats: nat, up: nat)
    requires 0 < taken < seats && taken * Pow10(up) >= Pow10(PRECISION - 1) * seats
    ensures up >= PRECISION
  {
    hide Pow10;
    if up <= PRECISION - 1 {
      Pow10Ordered(up, PRECISION - 1);
      Scale(Pow10(up), Pow10(PRECISION - 1), taken);
      ProductGap(taken, seats, Pow10(PRECISION - 1));
    }
  }

  lemma CabinLimit()
    ensures CABIN_LIMIT == 2 * Pow10(26)
  {
    PowersUsed();
    assert Pow10(7) == 10_000_000;
    Pow10Add(9, 10);
    Pow10Add(19, 7);
  }

  /** Rounding the quotient to 28 digits never moves a flight across a whole
      percentage: the comparison made on the rounded decimal is the exact one,
      for every cabin of fewer than 2 * 10^26 seats. */
  lemma ComparisonIsExact(taken: nat, seats: nat, bound: nat)
    requires 0 < seats < CABIN_LIMIT && 0 < bound <= 100
    ensures LessThan(Percentage(taken, seats), bound) <==> 100 * taken < bound * seats
  {
    CabinLimit();
    hide HalfEven, Pow10, ScaleUp, ScaleDown;
    if taken == 0 {
      Scale(1, bound, seats);
    } else {
      var floor := Pow10(PRECISION - 1);
      var up := ScaleUp(taken, seats, floor);
      if up == 0 {
        FullOrMore(taken, seats, bound);
      } else if up < 3 {
        SmallScale(taken, seats, bound, up);
      } else {
        if 100 * taken < bound * seats {
          Scale(bound, 100, seats);
          ScaleIsLarge(taken, seats, up);
          Pow10Ordered(26, up - 2);
        }
        ScaledComparison(taken, seats, bound, up - 2);
      }
    }
  }

  lemma SmallScale(taken: nat, seats: nat, bound: nat, up: nat)
    requires 0 < taken && 0 < seats && bound <= 100 && 0 < up < 3
    requires up == ScaleUp(taken, seats, Pow10(PRECISION - 1))
    ensures !LessThan(Percentage(taken, seats), bound) && 100 * taken >= bound * seats
  {
    assert Pow10(PRECISION - 1) >= 1000 by { Pow10Ordered(3, PRECISION - 1); }
    assert Pow10(2) == 100 && Pow10(1) == 10 && Pow10(0) == 1;
    Scale(1000, Pow10(PRECISION - 1), seats);
    HalfEvenAtLeast(taken * Pow10(up), 1000, seats);
    Scale(bound, 100, seats);
  }
}
