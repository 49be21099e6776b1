/**
 * Exact decimal amounts. `java.math.BigDecimal` values are modelled as Dafny
 * `real`s: arithmetic is exact and comparison (`compareTo`) is by value, so
 * scale distinctions such as 2.0 versus 2.00 disappear.
 */
module Decimal {

  /** x is a whole number of hundredths (at most two fraction digits). */
  predicate IsCents(x: real) {
    (x * 100.0).Floor as real == x * 100.0
  }

  /**
   * Rounds x to two fraction digits with `RoundingMode.HALF_UP`: to the
   * nearest hundredth, and away from zero when x lies exactly half-way.
   */
  function RoundHalfUp2(x: real): (r: real)
    ensures IsCents(r)
    ensures x >= 0.0 ==> x - 0.005 < r <= x + 0.005
    ensures x < 0.0 ==> x - 0.005 <= r < x + 0.005
  {
    if x >= 0.0 then
      var k := (x * 100.0 + 0.5).Floor;
      CentsOfInt(k);
      k as real / 100.0
    else
      var k := (-x * 100.0 + 0.5).Floor;
      CentsOfInt(-k);
      -k as real / 100.0
  }

  lemma CentsOfInt(k: int)
    ensures IsCents(k as real / 100.0)
  {
    assert k as real / 100.0 * 100.0 == k as real;
  }

  /** Rounding leaves an amount that already has two fraction digits alone. */
  lemma {:induction false} RoundHalfUp2OfCents(x: real)
    requires IsCents(x)
    ensures RoundHalfUp2(x) == x
  {
    var r := RoundHalfUp2(x);
    var a := (r * 100.0).Floor;
    var b := (x * 100.0).Floor;
    assert a as real == r * 100.0 && b as real == x * 100.0;
    if x >= 0.0 {
      assert b as real - 0.5 < a as real <= b as real + 0.5;
    } else {
      assert b as real - 0.5 <= a as real < b as real + 0.5;
    }
    assert a == b;
  }

  /** Rounding is monotone. */
  lemma {:induction false} RoundHalfUp2Monotone(x: real, y: real)
    requires x <= y
    ensures RoundHalfUp2(x) <= RoundHalfUp2(y)
  {
    if x >= 0.0 {
      assert (x * 100.0 + 0.5).Floor <= (y * 100.0 + 0.5).Floor;
    } else if y < 0.0 {
      assert (-y * 100.0 + 0.5).Floor <= (-x * 100.0 + 0.5).Floor;
    } else {
      assert (-x * 100.0 + 0.5).Floor >= 0;
    }
  }

  /** A half-way value is rounded away from zero: 33.325 becomes 33.33. */
  lemma RoundHalfUp2HalfWay()
    ensures RoundHalfUp2(33.325) == 33.33
    ensures RoundHalfUp2(-33.325) == -33.33
  {
    assert (33.325 * 100.0 + 0.5).Floor == 3333;
  }
}
