/** The measured transfer gain, looked up by wave period: linear between the points of a table, the
    nearest end value outside it. */
module GainTable {
  import opened RealMath

  datatype GainLookup = GainLookup(gain: real, clamped: bool)

  predicate Ascending(periods: seq<real>) {
    forall i, j | 0 <= i < j < |periods| :: periods[i] < periods[j]
  }

  /** A table as on_configure has checked it. */
  predicate Checked(periods: seq<real>, values: seq<real>) {
    |periods| == |values| >= 2 && Ascending(periods) && forall k | 0 <= k < |values| :: 0.0 < values[k]
  }

  /** The first point beyond x. */
  function UpperBound(periods: seq<real>, x: real): (i: nat)
    ensures i <= |periods|
    ensures forall k | 0 <= k < i :: periods[k] <= x
    ensures i < |periods| ==> x < periods[i]
  {
    if periods == [] || x < periods[0] then 0 else 1 + UpperBound(periods[1..], x)
  }

  function Fraction(periods: seq<real>, i: nat, period: real): real
    requires 1 <= i < |periods| && Ascending(periods)
  {
    (period - periods[i - 1]) / (periods[i] - periods[i - 1])
  }

  function Interpolate(periods: seq<real>, values: seq<real>, period: real): GainLookup
    requires Checked(periods, values)
  {
    var last := |periods| - 1;
    if period <= periods[0] then GainLookup(values[0], period < periods[0])
    else if period >= periods[last] then GainLookup(values[last], period > periods[last])
    else
      var i := UpperBound(periods, period);
      GainLookup(values[i - 1] + Mul(Fraction(periods, i, period), values[i] - values[i - 1]), false)
  }

  lemma FractionRange(periods: seq<real>, i: nat, period: real)
    requires 1 <= i < |periods| && Ascending(periods) && periods[i - 1] <= period <= periods[i]
    ensures 0.0 <= Fraction(periods, i, period) <= 1.0
    ensures period == periods[i - 1] ==> Fraction(periods, i, period) == 0.0
    ensures period == periods[i] ==> Fraction(periods, i, period) == 1.0
  {
    var width := periods[i] - periods[i - 1];
    DivideMono(0.0, period - periods[i - 1], width);
    DivideMono(period - periods[i - 1], width, width);
  }

  /** Where the lookup falls in the table: in segment i, between its two values. */
  lemma InSegment(periods: seq<real>, values: seq<real>, period: real) returns (i: nat)
    requires Checked(periods, values) && periods[0] <= period <= periods[|periods| - 1]
    ensures 1 <= i < |periods| && periods[i - 1] <= period <= periods[i]
    ensures Interpolate(periods, values, period).gain
            == values[i - 1] + Mul(Fraction(periods, i, period), values[i] - values[i - 1])
  {
    var last := |periods| - 1;
    if period <= periods[0] {
      i := 1;
    } else if period >= periods[last] {
      i := last;
    } else {
      i := UpperBound(periods, period);
    }
    FractionRange(periods, i, period);
  }

  /** The gain stays within whatever bounds the table's values have; so it is always positive. */
  lemma GainBounded(periods: seq<real>, values: seq<real>, period: real, lo: real, hi: real)
    requires Checked(periods, values) && forall k | 0 <= k < |values| :: lo <= values[k] <= hi
    ensures lo <= Interpolate(periods, values, period).gain <= hi
    ensures 0.0 < Interpolate(periods, values, period).gain
  {
    if periods[0] <= period <= periods[|periods| - 1] {
      var i := InSegment(periods, values, period);
      FractionRange(periods, i, period);
      Between(Fraction(periods, i, period), values[i - 1], values[i], lo, hi);
      Between(Fraction(periods, i, period), values[i - 1], values[i], Min(values[i - 1], values[i]),
              Max(values[i - 1], values[i]));
    }
  }

  /** At a table point the lookup is the table's value; it warns exactly outside the table. */
  lemma GainAtPoint(periods: seq<real>, values: seq<real>, k: nat, period: real)
    requires Checked(periods, values) && k < |periods|
    ensures Interpolate(periods, values, periods[k]) == GainLookup(values[k], false)
    ensures Interpolate(periods, values, period).clamped <==> period < periods[0] || period > periods[|periods| - 1]
  {
    if 0 < k < |periods| - 1 {
      var i := UpperBound(periods, periods[k]);
      assert periods[k] < periods[k + 1];
      FractionRange(periods, i, periods[k]);
    }
  }

  /** A table that rises with the period gives a gain that rises with the period. */
  lemma GainMonotone(periods: seq<real>, values: seq<real>, p: real, q: real)
    requires Checked(periods, values) && p <= q
    requires forall i, j | 0 <= i <= j < |values| :: values[i] <= values[j]
    ensures Interpolate(periods, values, p).gain <= Interpolate(periods, values, q).gain
  {
    var last := |periods| - 1;
    GainBounded(periods, values, p, values[0], values[last]);
    GainBounded(periods, values, q, values[0], values[last]);
    if periods[0] < p && q < periods[last] {
      var i, j := UpperBound(periods, p), UpperBound(periods, q);
      FractionRange(periods, i, p);
      FractionRange(periods, j, q);
      if i == j {
        var width, rise := periods[i] - periods[i - 1], values[i] - values[i - 1];
        DivideMono(p - periods[i - 1], q - periods[i - 1], width);
        NamedMono(Fraction(periods, i, p), Fraction(periods, i, q), rise);
      } else {
        assert i < j;
        Between(Fraction(periods, i, p), values[i - 1], values[i], values[i - 1], values[i]);
        Between(Fraction(periods, j, q), values[j - 1], values[j], values[j - 1], values[j]);
      }
    }
  }

  lemma WhichSegment(periods: seq<real>, values: seq<real>, i: nat, period: real)
    requires Checked(periods, values) && 1 <= i < |periods| && periods[i - 1] <= period <= periods[i]
    ensures Mul(Interpolate(periods, values, period).gain - values[i - 1], periods[i] - periods[i - 1])
            == Mul(period - periods[i - 1], values[i] - values[i - 1])
  {
    if period == periods[i - 1] {
      GainAtPoint(periods, values, i - 1, period);
      MulZero(periods[i] - periods[i - 1], values[i] - values[i - 1]);
    } else if period == periods[i] {
      GainAtPoint(periods, values, i, period);
      MulOther(periods[i] - periods[i - 1], values[i] - values[i - 1]);
    } else {
      assert UpperBound(periods, period) == i by {
        var k := UpperBound(periods, period);
        assert periods[i] > period;
      }
      Proportion(period - periods[i - 1], periods[i] - periods[i - 1], values[i] - values[i - 1]);
    }
  }

  lemma MulZero(x: real, y: real)
    ensures Mul(0.0, x) == Mul(0.0, y)
  {}

  lemma MulOther(x: real, y: real)
    ensures Mul(x, y) == Mul(y, x)
  {}

  lemma Proportion(x: real, width: real, rise: real)
    requires 0.0 < width
    ensures Mul(Mul(x / width, rise), width) == Mul(x, rise)
  {
    var q := x / width;
    assert q * width == x;
  }

  /** Between two neighbouring points the gain is linear: it changes by the segment's rise in proportion to
      the change of the period, so equal steps of the period give equal steps of the gain. */
  lemma GainLinear(periods: seq<real>, values: seq<real>, i: nat, p: real, q: real)
    requires Checked(periods, values) && 1 <= i < |periods|
    requires periods[i - 1] <= p <= periods[i] && periods[i - 1] <= q <= periods[i]
    ensures Mul(Interpolate(periods, values, q).gain - Interpolate(periods, values, p).gain, periods[i] - periods[i - 1])
            == Mul(q - p, values[i] - values[i - 1])
  {
    WhichSegment(periods, values, i, p);
    WhichSegment(periods, values, i, q);
    hide Interpolate;
    var v := values[i - 1];
    Subtracted(Interpolate(periods, values, q).gain - v, Interpolate(periods, values, p).gain - v,
               periods[i] - periods[i - 1]);
    Subtracted(q - periods[i - 1], p - periods[i - 1], values[i] - v);
  }

  lemma Subtracted(x: real, y: real, s: real)
    ensures Mul(x, s) - Mul(y, s) == Mul(x - y, s)
  {}
}
