/** AnalyticsCalculator: period-over-period growth, in exact arithmetic. */
module Calculator {

  /** calculate_growth: the percentage change from `previous` to `current`; a zero baseline
      reports 100 for any positive current value and 0 otherwise. */
  function Growth(current: int, previous: int): (g: real)
    ensures previous == 0 && current > 0 ==> g == 100.0
    ensures previous == 0 && current <= 0 ==> g == 0.0
    ensures previous != 0 ==> g * (previous as real) == ((current - previous) as real) * 100.0
  {
    if previous == 0 then (if current > 0 then 100.0 else 0.0)
    else ((current - previous) as real / previous as real) * 100.0
  }

  /** Against a positive baseline the sign of the growth is the direction of the change. */
  lemma GrowthSign(current: int, previous: int)
    requires previous > 0
    ensures Growth(current, previous) > 0.0 <==> current > previous
    ensures Growth(current, previous) == 0.0 <==> current == previous
    ensures Growth(current, previous) < 0.0 <==> current < previous
  {
    var g := Growth(current, previous);
    var p := previous as real;
    assert g * p == ((current - previous) as real) * 100.0;
    if g > 0.0 { assert g * p > 0.0; }
    if g < 0.0 { assert g * p < 0.0; }
    if g == 0.0 { assert g * p == 0.0; }
  }

  /** View counts never fall below a loss of 100 percent. */
  lemma GrowthAtLeastMinusHundred(current: int, previous: int)
    requires current >= 0 && previous >= 0
    ensures Growth(current, previous) >= -100.0
  {
    if previous > 0 {
      var p := previous as real;
      var q := (current as real) / p;
      assert q >= 0.0;
      assert p / p == 1.0;
      assert ((current - previous) as real) / p == q - p / p;
      assert Growth(current, previous) == (q - 1.0) * 100.0;
    }
  }

  /** Doubling is 100 percent growth and no change is 0 percent, whatever the baseline. */
  lemma GrowthScaleFree(previous: int)
    requires previous != 0
    ensures Growth(2 * previous, previous) == 100.0
    ensures Growth(previous, previous) == 0.0
  {
    var p := previous as real;
    assert (2 * previous - previous) as real == p;
    assert p / p == 1.0;
    assert (previous - previous) as real == 0.0;
  }

  lemma GrowthExamples()
    ensures Growth(0, 0) == 0.0
    ensures Growth(5, 0) == 100.0
    ensures Growth(150, 100) == 50.0
    ensures Growth(50, 100) == -50.0
    ensures Growth(-3, 0) == 0.0
  {
  }
}
