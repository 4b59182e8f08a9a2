// rollup.go: rounding, conversion and weighting, over exact reals.
module RollupMath {
  function RoundHalfAwayFromZero(x: real): int {
    if x >= 0.0 then (x + 0.5).Floor else -((-(x - 0.5)).Floor)
  }

  // The result is the nearest integer, and at a half the one further from zero.
  lemma RoundIsNearestIff(x: real, n: int)
    ensures RoundHalfAwayFromZero(x) == n
      <==> (-0.5 < n as real - x < 0.5) || (x >= 0.0 && n as real - x == 0.5) || (x < 0.0 && n as real - x == -0.5)
  {
    var y := if x >= 0.0 then x + 0.5 else -(x - 0.5);
    var f := y.Floor;
    assert f as real <= y < f as real + 1.0;
    if x >= 0.0 {
      assert RoundHalfAwayFromZero(x) == n <==> n as real <= y < n as real + 1.0;
    } else {
      assert RoundHalfAwayFromZero(x) == n <==> (-n) as real <= y < (-n) as real + 1.0;
    }
  }

  lemma RoundIsOdd(x: real)
    ensures RoundHalfAwayFromZero(-x) == -RoundHalfAwayFromZero(x)
  {
    RoundIsNearestIff(x, RoundHalfAwayFromZero(x));
    RoundIsNearestIff(-x, -RoundHalfAwayFromZero(x));
    if x == 0.0 {
      RoundIsNearestIff(0.0, 0);
    }
  }

  lemma RoundIsMonotone(x: real, y: real)
    requires x <= y
    ensures RoundHalfAwayFromZero(x) <= RoundHalfAwayFromZero(y)
  {
    RoundIsNearestIff(x, RoundHalfAwayFromZero(x));
    RoundIsNearestIff(y, RoundHalfAwayFromZero(y));
  }

  lemma RoundKeepsIntegers(n: int)
    ensures RoundHalfAwayFromZero(n as real) == n
  {
    RoundIsNearestIff(n as real, n);
  }

  // ------------------------------------------------------------- one deal

  function ConvertToBase(amount: int, currency: string, base: string, rate: real): int {
    if currency == base then amount else RoundHalfAwayFromZero(amount as real * rate)
  }

  function WeightedValue(value: int, winProbability: int): int {
    RoundHalfAwayFromZero(value as real * winProbability as real / 100.0)
  }

  function Abs(x: real): real {
    if x >= 0.0 then x else -x
  }

  lemma ProductSub(v: real, w: real, p: real)
    ensures (v - w) * p == v * p - w * p
  {
  }

  lemma ProductBetween(d: real, p: real)
    requires 0.0 <= p <= 100.0
    ensures d >= 0.0 ==> 0.0 <= d * p <= d * 100.0
    ensures d <= 0.0 ==> d * 100.0 <= d * p <= 0.0
  {
    if d >= 0.0 {
      assert d * p <= d * 100.0;
    } else {
      assert 0.0 <= (-d) * p <= (-d) * 100.0;
      assert (-d) * p == -(d * p);
    }
  }

  // A weighted value is within a half of its exact share of the base value.
  lemma WeightedWithinHalf(value: int, p: int)
    ensures Abs(WeightedValue(value, p) as real - value as real * p as real / 100.0) <= 0.5
  {
    RoundIsNearestIff(value as real * p as real / 100.0, WeightedValue(value, p));
  }

  lemma HalfProduct(d: real, p: real)
    requires 0.0 <= p <= 100.0 && -0.5 <= d <= 0.5
    ensures -50.0 <= d * p <= 50.0
  {
    ProductBetween(d, p);
  }

  lemma ScaledHalf(weighted: real, valueShare: real, exactShare: real)
    requires Abs(weighted - valueShare / 100.0) <= 0.5 && -50.0 <= valueShare - exactShare <= 50.0
    ensures Abs(weighted - exactShare / 100.0) <= 1.0
  {
  }

  // Two roundings, each off by at most a half, the first weighed down.
  lemma TwoHalves(weighted: real, value: real, exact: real, p: real)
    requires 0.0 <= p <= 100.0
    requires Abs(weighted - value * p / 100.0) <= 0.5 && Abs(value - exact) <= 0.5
    ensures Abs(weighted - exact * p / 100.0) <= 1.0
  {
    ProductSub(value, exact, p);
    HalfProduct(value - exact, p);
    ScaledHalf(weighted, value * p, exact * p);
  }

  // Through both roundings it stays within one of the exact share.
  lemma WeightedWithinOne(amount: int, currency: string, base: string, rate: real, p: int, exact: real)
    requires 0 <= p <= 100 && (currency == base ==> rate == 1.0) && exact == amount as real * rate
    ensures Abs(WeightedValue(ConvertToBase(amount, currency, base, rate), p) as real - exact * p as real / 100.0)
      <= 1.0
  {
    var value := ConvertToBase(amount, currency, base, rate);
    ConvertWithinHalf(amount, currency, base, rate);
    WithinOne(value, exact, p);
  }

  lemma WithinOne(value: int, exact: real, p: int)
    requires 0 <= p <= 100 && Abs(value as real - exact) <= 0.5
    ensures Abs(WeightedValue(value, p) as real - exact * p as real / 100.0) <= 1.0
  {
    WeightedWithinHalf(value, p);
    TwoHalves(WeightedValue(value, p) as real, value as real, exact, p as real);
  }

  lemma ConvertWithinHalf(amount: int, currency: string, base: string, rate: real)
    requires currency == base ==> rate == 1.0
    ensures Abs(ConvertToBase(amount, currency, base, rate) as real - amount as real * rate) <= 0.5
  {
    RoundIsNearestIff(amount as real * rate, RoundHalfAwayFromZero(amount as real * rate));
  }

  // Weighting keeps the sign and never exceeds the value; no chance weighs
  // nothing and certainty weighs everything.
  lemma WeightedIsBetween(value: int, p: int)
    requires 0 <= p <= 100
    ensures value >= 0 ==> 0 <= WeightedValue(value, p) <= value
    ensures value <= 0 ==> value <= WeightedValue(value, p) <= 0
    ensures WeightedValue(value, 0) == 0 && WeightedValue(value, 100) == value
  {
    ProductBetween(value as real, p as real);
    RoundBetween(value, value as real * p as real / 100.0);
    AllOrNothing(value);
  }

  lemma RoundBetween(n: int, x: real)
    ensures 0.0 <= x <= n as real ==> 0 <= RoundHalfAwayFromZero(x) <= n
    ensures n as real <= x <= 0.0 ==> n <= RoundHalfAwayFromZero(x) <= 0
  {
    RoundIsNearestIff(x, RoundHalfAwayFromZero(x));
  }

  lemma AllOrNothing(value: int)
    ensures WeightedValue(value, 0) == 0 && WeightedValue(value, 100) == value
  {
    RoundKeepsIntegers(0);
    RoundKeepsIntegers(value);
    assert value as real * 100.0 / 100.0 == value as real;
  }
}
