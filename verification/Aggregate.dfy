/** The one-pass aggregate of an experiment's metric
    (src/experiment/experiment_runner.cpp, compute_aggregate), over the reals. */
module Aggregate {

  datatype Metric = Metric(count: nat, min: real, max: real, mean: real, variance: real)

  function Sum(values: seq<real>): real
  {
    if values == [] then 0.0 else Sum(values[..|values| - 1]) + values[|values| - 1]
  }

  function Square(x: real): real { x * x }

  /** Two-pass definition: the sum of squared deviations from a centre. */
  function Deviations(values: seq<real>, centre: real): real
  {
    if values == [] then 0.0
    else Deviations(values[..|values| - 1], centre) + Square(values[|values| - 1] - centre)
  }

  function Mean(values: seq<real>): real
    requires values != []
  {
    Sum(values) / |values| as real
  }

  // ------------------------------------------------------------- small algebra

  function Times(x: real, y: real): real { x * y }

  lemma SquareOfSum(a: real, e: real)
    ensures Square(a + e) == Square(a) + 2.0 * Times(e, a) + Square(e)
  {
  }

  lemma SquareIsNonNegative(x: real)
    ensures Square(x) >= 0.0
  {
  }

  lemma TimesAdds(e: real, a: real, b: real)
    ensures Times(e, a) + Times(e, b) == Times(e, a + b)
    ensures Times(a, e) + Times(b, e) == Times(a + b, e)
    ensures Times(e, 0.0) == 0.0 && Times(0.0, e) == 0.0 && Times(1.0, e) == e
  {
  }

  lemma DivisionUndone(x: real, n: real)
    requires n > 0.0
    ensures Times(n, x / n) == x
  {
  }

  lemma QuotientIsUnique(x: real, n: real, q: real)
    requires n > 0.0 && Times(n, q) == x
    ensures x / n == q
  {
  }

  // ------------------------------------------------------------ the identities

  /** Moving the centre of the deviations. */
  lemma {:induction false} ShiftCentre(values: seq<real>, c: real, d: real)
    ensures Deviations(values, d)
         == Deviations(values, c) + 2.0 * Times(c - d, Sum(values) - Times(|values| as real, c))
                                     + Times(|values| as real, Square(c - d))
  {
    hide Times, Square;
    TimesAdds(c - d, 0.0, 0.0);
    TimesAdds(c, 0.0, 0.0);
    TimesAdds(Square(c - d), 0.0, 0.0);
    if values != [] {
      var init, x := values[..|values| - 1], values[|values| - 1];
      var k := |init| as real;
      ShiftCentre(init, c, d);
      SquareOfSum(x - c, c - d);
      assert x - c + (c - d) == x - d;
      TimesAdds(c - d, Sum(init) - Times(k, c), x - c);
      TimesAdds(c, k, 1.0);
      TimesAdds(Square(c - d), k, 1.0);
      assert |values| as real == k + 1.0;
      assert Sum(init) - Times(k, c) + (x - c) == Sum(values) - Times(k + 1.0, c);
    }
  }

  /** Around the mean, the deviations cancel: moving to the new mean costs k q². */
  lemma StepOfDeviations(values: seq<real>, x: real, mean: real, q: real)
    requires Times(|values| as real, mean) == Sum(values)
    requires x - mean == Times(|values| as real + 1.0, q)
    ensures Deviations(values + [x], mean + q) == Deviations(values, mean) + Times(x - mean, x - (mean + q))
    ensures Times(|values| as real + 1.0, mean + q) == Sum(values + [x])
  {
    hide Times, Square;
    var k := |values| as real;
    assert (values + [x])[..|values|] == values;
    ShiftCentre(values, mean, mean + q);
    assert Sum(values) - Times(k, mean) == 0.0;
    TimesAdds(mean - (mean + q), 0.0, 0.0);
    TimesAdds(q, k, 1.0);
    assert mean - (mean + q) == -q;
    assert x - (mean + q) == Times(k, q);
    Products(k, q);
    TimesAdds(k + 1.0, mean, q);
    TimesAdds(mean, k, 1.0);
  }

  lemma Products(k: real, q: real)
    ensures Times(k, Square(-q)) + Square(Times(k, q)) == Times(Times(k + 1.0, q), Times(k, q))
  {
    assert Times(k + 1.0, q) == k * q + q;
    var kq := k * q;
    assert k * (q * q) == kq * q;
    assert (kq + q) * kq == kq * kq + kq * q;
  }

  lemma {:induction false} DeviationsAreNonNegative(values: seq<real>, c: real)
    ensures Deviations(values, c) >= 0.0
  {
    hide Square;
    if values != [] {
      DeviationsAreNonNegative(values[..|values| - 1], c);
      SquareIsNonNegative(values[|values| - 1] - c);
    }
  }

  lemma {:induction false} SumIsBetween(values: seq<real>, lo: real, hi: real)
    requires forall i :: 0 <= i < |values| ==> lo <= values[i] <= hi
    ensures Times(|values| as real, lo) <= Sum(values) <= Times(|values| as real, hi)
  {
    hide Times;
    TimesAdds(lo, 0.0, 0.0);
    TimesAdds(hi, 0.0, 0.0);
    if values != [] {
      var init, k := values[..|values| - 1], (|values| - 1) as real;
      SumIsBetween(init, lo, hi);
      TimesAdds(lo, k, 1.0);
      TimesAdds(hi, k, 1.0);
      assert |values| as real == k + 1.0;
    }
  }

  lemma QuotientIsBetween(n: real, s: real, lo: real, hi: real)
    requires n > 0.0 && Times(n, lo) <= s <= Times(n, hi)
    ensures lo <= s / n <= hi
  {
  }

  lemma MeanIsBetween(values: seq<real>, lo: real, hi: real)
    requires values != [] && forall i :: 0 <= i < |values| ==> lo <= values[i] <= hi
    ensures lo <= Mean(values) <= hi
  {
    SumIsBetween(values, lo, hi);
    QuotientIsBetween(|values| as real, Sum(values), lo, hi);
  }

  /** No other centre has a smaller sum of squared deviations. */
  lemma MeanMinimises(values: seq<real>, c: real)
    requires values != []
    ensures Deviations(values, Mean(values)) <= Deviations(values, c)
  {
    hide Times, Square;
    var n, m := |values| as real, Mean(values);
    ShiftCentre(values, m, c);
    DivisionUndone(Sum(values), n);
    TimesAdds(m - c, 0.0, 0.0);
    SquareIsNonNegative(m - c);
    NonNegativeTimes(n, Square(m - c));
  }

  lemma NonNegativeTimes(x: real, y: real)
    requires x >= 0.0 && y >= 0.0
    ensures Times(x, y) >= 0.0
  {
  }

  function Max(x: real, y: real): real { if x < y then y else x }

  function Min(x: real, y: real): real { if y < x then y else x }

  /** The running mean and the running sum of squares are the two-pass ones. */
  method ComputeAggregate(values: seq<real>) returns (agg: Metric)
    ensures values == [] ==> agg == Metric(0, 0.0, 0.0, 0.0, 0.0)
    ensures agg.count == |values|
    ensures values != [] ==> agg.mean == Mean(values) && agg.min <= agg.mean <= agg.max
    ensures values != [] ==>
              && agg.min in values && agg.max in values
              && forall x :: x in values ==> agg.min <= x <= agg.max
    ensures values != [] ==> agg.variance == Deviations(values, Mean(values)) / |values| as real && agg.variance >= 0.0
  {
    hide Times, Square;
    if values == [] {
      return Metric(0, 0.0, 0.0, 0.0, 0.0);
    }
    var mean, m2, count := 0.0, 0.0, 0;
    var min, max := values[0], values[0];
    TimesAdds(mean, 0.0, 0.0);
    for i := 0 to |values|
      invariant count == i && Times(i as real, mean) == Sum(values[..i]) && m2 == Deviations(values[..i], mean)
      invariant min in values && max in values && forall j :: 0 <= j < i ==> min <= values[j] <= max
    {
      var x := values[i];
      min := Min(min, x);
      max := Max(max, x);
      count := count + 1;
      var delta := x - mean;
      DivisionUndone(delta, count as real);
      StepOfDeviations(values[..i], x, mean, delta / count as real);
      assert values[..i + 1] == values[..i] + [x];
      mean := mean + delta / count as real;
      var delta2 := x - mean;
      m2 := m2 + Times(delta, delta2);
    }
    assert values[..|values|] == values;
    QuotientIsUnique(Sum(values), count as real, mean);
    MeanIsBetween(values, min, max);
    DeviationsAreNonNegative(values, mean);
    if count == 1 {
      SingleVariance(values);
    }
    QuotientIsNonNegative(m2, count as real);
    var variance := if count > 1 then m2 / count as real else 0.0;
    agg := Metric(count, min, max, mean, Max(0.0, variance));
  }

  lemma SingleVariance(values: seq<real>)
    requires |values| == 1
    ensures Deviations(values, Mean(values)) == 0.0
  {
    assert Sum(values) == values[0];
  }

  lemma QuotientIsNonNegative(x: real, n: real)
    requires x >= 0.0 && n > 0.0
    ensures x / n >= 0.0
  {
  }
}
