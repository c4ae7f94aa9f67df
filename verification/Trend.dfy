/** Least-squares trend over millisecond timestamps, in exact reals. */
module Trend {
  import opened Domain
  import opened Sums

  datatype Sample = Sample(at: int, value: real)

  datatype Trend = Trend(
    slope: real,
    intercept: real,
    reference: int,
    rSquared: real,
    residualVariance: real,
    sxx: real,
    n: nat)

  const FLAT_EPSILON: real := 0.000000000001
  const Z: real := 1.96

  /** The squared error of the line through (m, a) with slope b. */
  function SquaredError(ts: seq<real>, vs: seq<real>, m: real, a: real, b: real): real
    requires |ts| == |vs|
  {
    if ts == [] then 0.0
    else
      var k := |ts| - 1;
      SquaredError(ts[..k], vs[..k], m, a, b) + Square(vs[k] - (a + Mul(b, ts[k] - m)))
  }

  lemma ErrorStep(ts: seq<real>, vs: seq<real>, m: real, a: real, b: real)
    requires |ts| == |vs| && ts != []
    ensures var k := |ts| - 1;
            SquaredError(ts, vs, m, a, b) == SquaredError(ts[..k], vs[..k], m, a, b) + Square(vs[k] - (a + Mul(b, ts[k] - m)))
  {
  }

  /** Seconds since the first sample. */
  function Times(samples: seq<Sample>): (r: seq<real>)
    ensures |r| == |samples|
    ensures forall k :: 0 <= k < |r| ==> r[k] == (samples[k].at - samples[0].at) as real / 1000.0
  {
    seq(|samples|, k requires 0 <= k < |samples| => (samples[k].at - samples[0].at) as real / 1000.0)
  }

  function Values(samples: seq<Sample>): (r: seq<real>)
    ensures |r| == |samples| && forall k :: 0 <= k < |r| ==> r[k] == samples[k].value
  {
    seq(|samples|, k requires 0 <= k < |samples| => samples[k].value)
  }

  /** Conversion of a float to an integer: toward zero. */
  function Truncate(x: real): int {
    if x >= 0.0 then x.Floor else -((-x).Floor)
  }

  function Fit(samples: seq<Sample>): Option<Trend> {
    if |samples| < 2 then None
    else
      var ts, vs := Times(samples), Values(samples);
      var tMean, vMean := Mean(ts), Mean(vs);
      var sxx := Dot(ts, tMean, ts, tMean);
      if sxx <= 0.0 then None
      else
        var slope := Dot(ts, tMean, vs, vMean) / sxx;
        var sse := SquaredError(ts, vs, tMean, vMean, slope);
        var sst := Dot(vs, vMean, vs, vMean);
        Some(Trend(slope, vMean, samples[0].at + Truncate(tMean * 1000.0),
                   if sst <= 0.0 then 1.0 else 1.0 - sse / sst,
                   sse / |samples| as real, sxx, |samples|))
  }

  function Seconds(trend: Trend, at: int): real {
    (at - trend.reference) as real / 1000.0
  }

  function ProjectedValue(trend: Trend, at: int): real {
    trend.intercept + Mul(trend.slope, Seconds(trend, at))
  }

  /** The square of the prediction interval's half width. */
  function IntervalSquared(trend: Trend, at: int): real
    requires trend.n > 0 && trend.sxx > 0.0
  {
    Mul(Z * Z * trend.residualVariance, 1.0 + 1.0 / trend.n as real + Square(Seconds(trend, at)) / trend.sxx)
  }

  function TimeToReach(trend: Trend, threshold: real, start: int): Option<int> {
    var gap := threshold - ProjectedValue(trend, start);
    if (gap > 0.0 && trend.slope > FLAT_EPSILON) || (gap < 0.0 && trend.slope < -FLAT_EPSILON)
    then Some(start + Truncate(gap / trend.slope * 1000.0))
    else None
  }

  // ---------------------------------------------------------------- squared error

  /** What a squared error comes to, from the sums around one centre and a line d above it with slope b. */
  function Expanded(n: real, sxx: real, sxy: real, syy: real, sx: real, sy: real, d: real, b: real): real {
    syy + Mul(n, Square(d)) + Mul(Square(b), sxx) - 2.0 * Mul(b, sxy) - 2.0 * Mul(d, sy) + 2.0 * Mul(Mul(d, b), sx)
  }

  lemma ExpandedStep(n: real, sxx: real, sxy: real, syy: real, sx: real, sy: real, d: real, b: real, x: real, y: real)
    ensures Expanded(n + 1.0, sxx + Mul(x, x), sxy + Mul(x, y), syy + Mul(y, y), sx + x, sy + y, d, b)
            == Expanded(n, sxx, sxy, syy, sx, sy, d, b) + Square(y - d - Mul(b, x))
  {
    hide Mul, Square;
    SquareOfResidual(y, d, b, x);
    assert Mul(1.0, Square(d)) == Square(d) by { One(Square(d)); }
    Distribute(n, 1.0, Square(d));
    Distribute(Square(b), sxx, Mul(x, x));
    Distribute(b, sxy, Mul(x, y));
    Distribute(d, sy, y);
    Distribute(Mul(d, b), sx, x);
  }

  lemma One(x: real)
    ensures Mul(1.0, x) == x
  {
  }

  lemma SquareOfResidual(y: real, d: real, b: real, x: real)
    ensures Square(y - d - Mul(b, x)) ==
            Mul(y, y) + Square(d) + Mul(Square(b), Mul(x, x)) - 2.0 * Mul(b, Mul(x, y)) - 2.0 * Mul(d, y) + 2.0 * Mul(Mul(d, b), x)
  {
    var p := b * x;
    assert (y - d - p) * (y - d - p) == y * y + d * d + p * p - 2.0 * (p * y) - 2.0 * (d * y) + 2.0 * (d * p);
    assert p * p == b * b * (x * x);
    assert p * y == b * (x * y);
    assert d * p == d * b * x;
  }

  /** The error of any line, in terms of deviations from any centre. */
  lemma {:induction false} ErrorExpands(ts: seq<real>, vs: seq<real>, m: real, c: real, a: real, b: real)
    requires |ts| == |vs|
    ensures SquaredError(ts, vs, m, a, b) ==
            Expanded(|ts| as real, Dot(ts, m, ts, m), Dot(ts, m, vs, c), Dot(vs, c, vs, c),
                     Deviation(ts, m), Deviation(vs, c), a - c, b)
  {
    if ts == [] {
      ExpandedNothing(a - c, b);
    } else {
      hide Expanded, SquaredError, Dot, Square, Mul, Deviation;
      var k := |ts| - 1;
      var t0, v0 := ts[..k], vs[..k];
      ErrorExpands(t0, v0, m, c, a, b);
      ErrorStep(ts, vs, m, a, b);
      DotStep(ts, m, ts, m);
      DotStep(ts, m, vs, c);
      DotStep(vs, c, vs, c);
      DeviationStep(ts, m);
      DeviationStep(vs, c);
      var x, y, d := ts[k] - m, vs[k] - c, a - c;
      ExpandedStep(k as real, Dot(t0, m, t0, m), Dot(t0, m, v0, c), Dot(v0, c, v0, c),
                   Deviation(t0, m), Deviation(v0, c), d, b, x, y);
      assert vs[k] - (a + Mul(b, ts[k] - m)) == y - d - Mul(b, x);
    }
  }

  lemma ExpandedNothing(d: real, b: real)
    ensures Expanded(0.0, 0.0, 0.0, 0.0, 0.0, 0.0, d, b) == 0.0
  {
  }

  /** Around the means the cross terms vanish. */
  lemma ErrorAroundMeans(ts: seq<real>, vs: seq<real>, a: real, b: real)
    requires |ts| == |vs| && ts != []
    ensures var m, c := Mean(ts), Mean(vs);
            SquaredError(ts, vs, m, a, b) ==
            Expanded(|ts| as real, Dot(ts, m, ts, m), Dot(ts, m, vs, c), Dot(vs, c, vs, c), 0.0, 0.0, a - c, b)
  {
    hide SquaredError, Dot, Mean, Expanded, Deviation;
    ErrorExpands(ts, vs, Mean(ts), Mean(vs), a, b);
    DeviationsCancel(ts);
    DeviationsCancel(vs);
  }

  lemma CompleteSquare(n: real, sxx: real, sxy: real, syy: real, d: real, b: real, slope: real)
    requires n >= 0.0 && sxx > 0.0 && slope == sxy / sxx
    ensures Expanded(n, sxx, sxy, syy, 0.0, 0.0, 0.0, slope) <= Expanded(n, sxx, sxy, syy, 0.0, 0.0, d, b)
    ensures Expanded(n, sxx, sxy, syy, 0.0, 0.0, 0.0, slope) <= syy
  {
    assert sxy == slope * sxx;
    ExpandedAt(n, sxx, slope, syy, d, b);
    ExpandedAt(n, sxx, slope, syy, 0.0, slope);
    ProductNonNegative(Square(b - slope), sxx);
    ProductNonNegative(n, Square(d));
    ProductNonNegative(Square(slope), sxx);
  }

  lemma ExpandedAt(n: real, sxx: real, slope: real, syy: real, d: real, b: real)
    ensures Expanded(n, sxx, slope * sxx, syy, 0.0, 0.0, d, b)
            == syy + Mul(n, Square(d)) + Mul(Square(b - slope), sxx) - Mul(Square(slope), sxx)
  {
    assert Square(b - slope) == b * b - 2.0 * (b * slope) + slope * slope;
  }

  // ---------------------------------------------------------------- the fit

  /** The line a fit found, on the exact mean time rather than its truncated reference. */
  function FittedError(samples: seq<Sample>, trend: Trend): real
    requires samples != []
  {
    SquaredError(Times(samples), Values(samples), Mean(Times(samples)), trend.intercept, trend.slope)
  }

  /** Refused exactly for fewer than two samples or one shared timestamp. */
  lemma FitRefuses(samples: seq<Sample>)
    ensures Fit(samples).None? <==> |samples| < 2 || forall k :: 0 <= k < |samples| ==> samples[k].at == samples[0].at
  {
    if |samples| >= 2 {
      NoSpread(samples);
    }
  }

  lemma NoSpread(samples: seq<Sample>)
    requires samples != []
    ensures var ts := Times(samples);
            Dot(ts, Mean(ts), ts, Mean(ts)) <= 0.0 <==> forall k :: 0 <= k < |samples| ==> samples[k].at == samples[0].at
  {
    hide Dot, Sum;
    var ts := Times(samples);
    DotSquareNonNegative(ts, Mean(ts));
    if forall k :: 0 <= k < |samples| ==> samples[k].at == samples[0].at {
      SumOfEqual(ts, 0.0);
    }
    if forall k :: 0 <= k < |ts| ==> ts[k] == Mean(ts) {
      forall k | 0 <= k < |samples| ensures samples[k].at == samples[0].at {
        assert ts[k] == ts[0];
      }
    }
  }

  /** No line has a smaller squared error, and the coefficient of determination is between 0 and 1. */
  lemma FitIsOptimal(samples: seq<Sample>, m: real, a: real, b: real)
    requires Fit(samples).Some?
    ensures var trend := Fit(samples).value;
            && FittedError(samples, trend) <= SquaredError(Times(samples), Values(samples), m, a, b)
            && 0.0 <= trend.rSquared <= 1.0
            && trend.sxx > 0.0 && trend.residualVariance >= 0.0 && trend.n == |samples|
  {
    hide SquaredError, Dot, Sum, Mean, Expanded;
    var ts, vs := Times(samples), Values(samples);
    var tm, vm, trend := Mean(ts), Mean(vs), Fit(samples).value;
    var sst := Dot(vs, vm, vs, vm);
    var moved := a + Mul(b, tm - m);
    Recentre(ts, vs, m, tm, a, b);
    ErrorAroundMeans(ts, vs, moved, b);
    ErrorAroundMeans(ts, vs, vm, trend.slope);
    CompleteSquare(|ts| as real, Dot(ts, tm, ts, tm), Dot(ts, tm, vs, vm), sst, moved - vm, b, trend.slope);
    ErrorVanishes(ts, vs, tm, vm, trend.slope);
    var sse := FittedError(samples, trend);
    if sst > 0.0 {
      Fraction(sse, sst);
    }
    QuotientNonNegative(sse, |samples| as real);
  }

  /** R² is the share of the horizontal line's error that the fit removes; it is 1 exactly when every sample is on the line. */
  lemma RSquaredExplains(samples: seq<Sample>)
    requires Fit(samples).Some?
    ensures var trend, ts, vs := Fit(samples).value, Times(samples), Values(samples);
            && Mul(1.0 - trend.rSquared, SquaredError(ts, vs, Mean(ts), Mean(vs), 0.0)) == FittedError(samples, trend)
            && trend.residualVariance * |samples| as real == FittedError(samples, trend)
            && (trend.rSquared == 1.0 <==> forall k :: 0 <= k < |samples| ==> vs[k] == trend.intercept + Mul(trend.slope, ts[k] - Mean(ts)))
  {
    hide SquaredError, Dot, Sum, Mean, Expanded, Square;
    var ts, vs, trend := Times(samples), Values(samples), Fit(samples).value;
    var tm, vm := Mean(ts), Mean(vs);
    var sst, sse := Dot(vs, vm, vs, vm), FittedError(samples, trend);
    FitIsOptimal(samples, tm, vm, 0.0);
    ErrorAroundMeans(ts, vs, vm, 0.0);
    HorizontalLine(|ts| as real, Dot(ts, tm, ts, tm), Dot(ts, tm, vs, vm), sst);
    ErrorVanishes(ts, vs, tm, vm, trend.slope);
    if sst > 0.0 {
      Share(sse, sst);
    } else {
      DotSquareNonNegative(vs, vm);
    }
  }

  lemma Share(x: real, y: real)
    requires y > 0.0
    ensures Mul(1.0 - (1.0 - x / y), y) == x && (1.0 - x / y == 1.0 <==> x == 0.0)
  {
    assert x / y * y == x;
  }

  lemma HorizontalLine(n: real, sxx: real, sxy: real, syy: real)
    ensures Expanded(n, sxx, sxy, syy, 0.0, 0.0, 0.0, 0.0) == syy
  {
  }

  lemma {:induction false} ErrorVanishes(ts: seq<real>, vs: seq<real>, m: real, a: real, b: real)
    requires |ts| == |vs|
    ensures SquaredError(ts, vs, m, a, b) >= 0.0
    ensures SquaredError(ts, vs, m, a, b) == 0.0 <==> forall k :: 0 <= k < |ts| ==> vs[k] == a + Mul(b, ts[k] - m)
  {
    hide Mul, Square;
    if ts != [] {
      var k := |ts| - 1;
      ErrorVanishes(ts[..k], vs[..k], m, a, b);
      assert Square(0.0) == 0.0 by { SquareOfZero(); }
      assert forall j :: 0 <= j < k ==> ts[..k][j] == ts[j] && vs[..k][j] == vs[j];
    }
  }

  lemma SquareOfZero()
    ensures Square(0.0) == 0.0
  {
  }

  lemma Fraction(x: real, y: real)
    requires 0.0 <= x <= y && y > 0.0
    ensures 0.0 <= x / y <= 1.0
  {
  }

  lemma QuotientNonNegative(x: real, y: real)
    requires 0.0 <= x && y > 0.0
    ensures 0.0 <= x / y && (x > 0.0 ==> x / y > 0.0)
  {
  }

  /** The same line written around another time. */
  lemma {:induction false} Recentre(ts: seq<real>, vs: seq<real>, m: real, m2: real, a: real, b: real)
    requires |ts| == |vs|
    ensures SquaredError(ts, vs, m, a, b) == SquaredError(ts, vs, m2, a + Mul(b, m2 - m), b)
  {
    if ts != [] {
      var k := |ts| - 1;
      Recentre(ts[..k], vs[..k], m, m2, a, b);
      Distribute(b, m2 - m, ts[k] - m2);
      assert Mul(b, ts[k] - m) == Mul(b, m2 - m + (ts[k] - m2));
    }
  }

  // ---------------------------------------------------------------- rounding

  lemma TruncateBounds(x: real)
    ensures -1.0 < x - Truncate(x) as real < 1.0
    ensures x >= 0.0 ==> 0.0 <= x - Truncate(x) as real
    ensures x <= 0.0 ==> x - Truncate(x) as real <= 0.0
  {
  }

  function Abs(x: real): real { if x < 0.0 then -x else x }

  lemma ScaledBound(slope: real, e: real)
    requires -1.0 < e < 1.0
    ensures slope != 0.0 ==> Abs(Mul(slope, e / 1000.0)) < Abs(slope) / 1000.0
    ensures slope == 0.0 ==> Mul(slope, e / 1000.0) == 0.0
  {
    Distribute(slope, 0.001 - e / 1000.0, e / 1000.0);
    Distribute(slope, 0.001 + e / 1000.0, -e / 1000.0);
    if slope > 0.0 {
      Product(slope, 0.001 - e / 1000.0);
      Product(slope, 0.001 + e / 1000.0);
    } else if slope < 0.0 {
      Product(slope, e / 1000.0 - 0.001);
      Product(slope, -e / 1000.0 - 0.001);
    }
  }

  /** Truncating the reference to a millisecond moves any projection by less than |slope| / 1000. */
  lemma ReferenceRounding(samples: seq<Sample>, at: int)
    requires Fit(samples).Some?
    ensures var trend := Fit(samples).value;
            var exact := trend.intercept + Mul(trend.slope, (at - samples[0].at) as real / 1000.0 - Mean(Times(samples)));
            Abs(ProjectedValue(trend, at) - exact) <= Abs(trend.slope) / 1000.0
  {
    hide SquaredError, Dot, Mean;
    var trend, tm := Fit(samples).value, Mean(Times(samples));
    Shifted(trend.slope, trend.intercept, samples[0].at, at, tm);
  }

  lemma Shifted(slope: real, intercept: real, first: int, at: int, tm: real)
    ensures var rounded := intercept + Mul(slope, (at - (first + Truncate(tm * 1000.0))) as real / 1000.0);
            var exact := intercept + Mul(slope, (at - first) as real / 1000.0 - tm);
            Abs(rounded - exact) <= Abs(slope) / 1000.0
  {
    var e := tm * 1000.0 - Truncate(tm * 1000.0) as real;
    TruncateBounds(tm * 1000.0);
    ScaledBound(slope, e);
    var base := (at - first) as real / 1000.0 - tm;
    assert (at - (first + Truncate(tm * 1000.0))) as real / 1000.0 == base + e / 1000.0;
    Distribute(slope, base, e / 1000.0);
  }

  /** An ETA is given exactly when the trend heads for the threshold at more than the flat slope. */
  lemma EtaExists(trend: Trend, threshold: real, start: int)
    ensures var gap := threshold - ProjectedValue(trend, start);
            TimeToReach(trend, threshold, start).Some? <==> Mul(gap, trend.slope) > 0.0 && Abs(trend.slope) > FLAT_EPSILON
  {
    var gap, slope := threshold - ProjectedValue(trend, start), trend.slope;
    if (gap > 0.0 && slope > 0.0) || (gap < 0.0 && slope < 0.0) {
      Product(gap, slope);
    } else if gap > 0.0 && slope < 0.0 {
      Product(gap, -slope);
    } else if gap < 0.0 && slope > 0.0 {
      Product(-gap, slope);
    }
  }

  /** A given ETA is not before the start, projects to within |slope| / 1000 of the threshold, and never beyond it. */
  lemma EtaIsTight(trend: Trend, threshold: real, start: int)
    requires TimeToReach(trend, threshold, start).Some?
    ensures var eta := TimeToReach(trend, threshold, start).value;
            && eta >= start
            && Abs(threshold - ProjectedValue(trend, eta)) < Abs(trend.slope) / 1000.0
            && (trend.slope > 0.0 ==> ProjectedValue(trend, eta) <= threshold)
            && (trend.slope < 0.0 ==> ProjectedValue(trend, eta) >= threshold)
  {
    hide Mul;
    var slope, base := trend.slope, Seconds(trend, start);
    var gap := threshold - ProjectedValue(trend, start);
    Wait(gap, slope);
    var wait := gap / slope;
    var ms := Truncate(wait * 1000.0);
    TruncateBounds(wait * 1000.0);
    var e := wait * 1000.0 - ms as real;
    ScaledBound(slope, e);
    Landing(slope, trend.intercept, base, threshold, e);
    assert Seconds(trend, start + ms) == base + wait - e / 1000.0;
    if slope > 0.0 {
      ProductNonNegative(slope, e / 1000.0);
    } else {
      ProductOfOpposites(slope, e / 1000.0);
    }
  }

  lemma ProductOfOpposites(x: real, y: real)
    requires x <= 0.0 <= y
    ensures Mul(x, y) <= 0.0
  {
    assert (-x) * y >= 0.0;
  }

  /** A time short of the crossing by e milliseconds leaves a gap of the slope times e. */
  lemma Landing(slope: real, intercept: real, base: real, threshold: real, e: real)
    requires slope != 0.0
    ensures var wait := (threshold - (intercept + Mul(slope, base))) / slope;
            threshold - (intercept + Mul(slope, base + wait - e / 1000.0)) == Mul(slope, e / 1000.0)
  {
    var gap := threshold - (intercept + Mul(slope, base));
    var wait := gap / slope;
    assert Mul(slope, wait) == gap;
    hide Mul;
    Distribute(slope, base, wait);
    Distribute(slope, base + wait - e / 1000.0, e / 1000.0);
  }

  lemma Wait(gap: real, slope: real)
    requires (gap > 0.0 && slope > 0.0) || (gap < 0.0 && slope < 0.0)
    ensures gap / slope > 0.0 && Mul(slope, gap / slope) == gap
  {
    if slope > 0.0 {
      QuotientNonNegative(gap, slope);
    } else {
      QuotientNonNegative(-gap, -slope);
      assert gap / slope == (-gap) / (-slope);
    }
  }

  /** The interval is narrowest at the reference and widens with distance in time on either side. */
  lemma IntervalWidens(trend: Trend, near: int, far: int)
    requires trend.n > 0 && trend.sxx > 0.0 && trend.residualVariance >= 0.0
    requires Abs(Seconds(trend, near)) <= Abs(Seconds(trend, far))
    ensures IntervalSquared(trend, near) <= IntervalSquared(trend, far)
  {
    hide Mul, Square;
    var p, q := Square(Seconds(trend, near)), Square(Seconds(trend, far));
    SquareMonotone(Seconds(trend, near), Seconds(trend, far));
    QuotientMonotone(p, q, trend.sxx);
    var w, u := Z * Z * trend.residualVariance, 1.0 + 1.0 / trend.n as real;
    ProductNonNegative(w, q / trend.sxx - p / trend.sxx);
    Distribute(w, u + p / trend.sxx, q / trend.sxx - p / trend.sxx);
  }

  lemma SquareMonotone(x: real, y: real)
    requires Abs(x) <= Abs(y)
    ensures Square(x) <= Square(y)
  {
    ProductNonNegative(Abs(y) - Abs(x), Abs(y) + Abs(x));
    assert Mul(Abs(y) - Abs(x), Abs(y) + Abs(x)) == Square(y) - Square(x);
  }

  lemma QuotientMonotone(p: real, q: real, s: real)
    requires p <= q && s > 0.0
    ensures p / s <= q / s
  {
    QuotientNonNegative(q - p, s);
    assert q / s - p / s == (q - p) / s;
  }

  // ---------------------------------------------------------------- the interval over the samples

  /** The squared half widths at the samples, added up. */
  function IntervalTotal(trend: Trend, samples: seq<Sample>): real
    requires trend.n > 0 && trend.sxx > 0.0
  {
    if samples == [] then 0.0
    else
      var k := |samples| - 1;
      IntervalTotal(trend, samples[..k]) + IntervalSquared(trend, samples[k].at)
  }

  /** How far the reference lies before the mean time of the samples, in seconds. */
  function Lag(samples: seq<Sample>, trend: Trend): real
    requires samples != []
  {
    Mean(Times(samples)) - (trend.reference - samples[0].at) as real / 1000.0
  }

  /** Moving the centre of squared deviations. */
  lemma {:induction false} CentreMoves(xs: seq<real>, m: real, d: real)
    ensures Dot(xs, m - d, xs, m - d) == Dot(xs, m, xs, m) + 2.0 * Mul(d, Deviation(xs, m)) + Mul(|xs| as real, Square(d))
  {
    hide Mul, Square, Deviation;
    if xs == [] {
      NoDeviation(m, d);
    } else {
      var k := |xs| - 1;
      var x := xs[k] - m;
      CentreMoves(xs[..k], m, d);
      DotStep(xs, m, xs, m);
      DotStep(xs, m - d, xs, m - d);
      DeviationStep(xs, m);
      Distribute(d, Deviation(xs[..k], m), x);
      Distribute(k as real, 1.0, Square(d));
      One(Square(d));
      SquareOfSum(x, d);
      assert xs[k] - (m - d) == x + d;
    }
  }

  lemma NoDeviation(m: real, d: real)
    ensures Mul(d, Deviation([], m)) == 0.0 && Mul(0.0, Square(d)) == 0.0
  {
  }

  lemma SquareOfSum(x: real, d: real)
    ensures Mul(x + d, x + d) == Mul(x, x) + 2.0 * Mul(d, x) + Square(d)
  {
  }

  lemma QuotientOfSum(x: real, y: real, s: real)
    requires s > 0.0
    ensures (x + y) / s == x / s + y / s
  {
  }

  /** The widths over the first `k` samples, through their squared deviations from the reference. */
  lemma {:induction false} TotalOfPrefix(trend: Trend, samples: seq<Sample>, k: nat)
    requires trend.n > 0 && trend.sxx > 0.0 && k <= |samples| && samples != []
    ensures var ts, c := Times(samples)[..k], (trend.reference - samples[0].at) as real / 1000.0;
            IntervalTotal(trend, samples[..k]) ==
            Mul(Z * Z * trend.residualVariance, Mul(k as real, 1.0 + 1.0 / trend.n as real) + Dot(ts, c, ts, c) / trend.sxx)
  {
    hide Mul, Square, Dot, IntervalSquared;
    var c := (trend.reference - samples[0].at) as real / 1000.0;
    var w, u := Z * Z * trend.residualVariance, 1.0 + 1.0 / trend.n as real;
    if k == 0 {
      NothingWeighs(w, u, c, trend.sxx);
    } else {
      var j := k - 1;
      TotalOfPrefix(trend, samples, j);
      assert samples[..k][..j] == samples[..j];
      var ts := Times(samples)[..k];
      assert ts[..j] == Times(samples)[..j];
      DotStep(ts, c, ts, c);
      var x := ts[j] - c;
      assert x == Seconds(trend, samples[j].at);
      var d := Dot(ts[..j], c, ts[..j], c);
      Distribute(j as real, 1.0, u);
      One(u);
      QuotientOfSum(d, Square(x), trend.sxx);
      SquareIsMul(x);
      IntervalAt(trend, samples[j].at);
      Distribute(w, Mul(j as real, u) + d / trend.sxx, u + Square(x) / trend.sxx);
    }
  }

  lemma NothingWeighs(w: real, u: real, c: real, s: real)
    requires s > 0.0
    ensures Mul(w, Mul(0.0, u) + Dot([], c, [], c) / s) == 0.0
  {
  }

  lemma SquareIsMul(x: real)
    ensures Square(x) == Mul(x, x)
  {
  }

  lemma IntervalAt(trend: Trend, at: int)
    requires trend.n > 0 && trend.sxx > 0.0
    ensures IntervalSquared(trend, at) ==
            Mul(Z * Z * trend.residualVariance, 1.0 + 1.0 / trend.n as real + Square(Seconds(trend, at)) / trend.sxx)
  {
  }

  /**
   * Over the samples of a fit the squared half widths come to 1.96² residual variances for
   * each sample and two more, one for each coefficient of the line, but for the rounding of
   * the reference; at the reference itself the width is that of the mean of n samples.
   */
  lemma IntervalsAddUp(samples: seq<Sample>)
    requires Fit(samples).Some?
    ensures var trend := Fit(samples).value;
            var n, unit, lag := |samples| as real, 3.8416 * trend.residualVariance, Lag(samples, trend);
            && -0.001 < lag < 0.001
            && IntervalTotal(trend, samples) == Mul(unit, n + 2.0 + Mul(n, Square(lag)) / trend.sxx)
            && Mul(n, IntervalSquared(trend, trend.reference)) == Mul(unit, n + 1.0)
  {
    hide SquaredError, Dot, Sum, Mean, Mul, Square, IntervalSquared, Truncate, IntervalTotal, Fit;
    var trend := Fit(samples).value;
    FitCarries(samples);
    LagIsRounding(Mean(Times(samples)), samples[0].at, trend.reference);
    TotalOverFit(samples, trend);
    WidthAtReference(trend);
  }

  lemma FitCarries(samples: seq<Sample>)
    requires Fit(samples).Some?
    ensures var trend, m := Fit(samples).value, Mean(Times(samples));
            && trend.sxx == Dot(Times(samples), m, Times(samples), m) && trend.sxx > 0.0
            && trend.n == |samples| > 0 && trend.reference == samples[0].at + Truncate(m * 1000.0)
  {
    hide SquaredError, Dot, Sum, Mean;
  }

  lemma TotalOverFit(samples: seq<Sample>, trend: Trend)
    requires samples != [] && trend.n == |samples| && trend.sxx > 0.0
    requires var ts := Times(samples); trend.sxx == Dot(ts, Mean(ts), ts, Mean(ts))
    ensures var n, lag := |samples| as real, Lag(samples, trend);
            IntervalTotal(trend, samples) == Mul(3.8416 * trend.residualVariance, n + 2.0 + Ratio(Mul(n, Square(lag)), trend.sxx))
  {
    hide *;
    TotalOfAll(trend, samples);
    SpreadAround(Times(samples), Lag(samples, trend));
  }

  lemma LagMeans(samples: seq<Sample>, trend: Trend)
    requires samples != []
    ensures (trend.reference - samples[0].at) as real / 1000.0 == Mean(Times(samples)) - Lag(samples, trend)
  {
    hide Mean;
  }

  lemma TotalOfAll(trend: Trend, samples: seq<Sample>)
    requires samples != [] && trend.n == |samples| && trend.sxx > 0.0
    ensures var ts, c := Times(samples), Mean(Times(samples)) - Lag(samples, trend);
            IntervalTotal(trend, samples) ==
            Mul(3.8416 * trend.residualVariance, |samples| as real + 1.0 + Ratio(Dot(ts, c, ts, c), trend.sxx))
  {
    hide Dot, Mul, IntervalTotal, Lag, Mean;
    LagMeans(samples, trend);
    TotalOfPrefix(trend, samples, |samples|);
    assert samples[..|samples|] == samples && Times(samples)[..|samples|] == Times(samples);
    EachAndOneMore(|samples| as real);
  }

  function Ratio(x: real, s: real): real
    requires s > 0.0
  {
    x / s
  }

  /** The squared deviations from a time `lag` before the mean, in units of those from the mean. */
  lemma SpreadAround(ts: seq<real>, lag: real)
    requires ts != [] && Dot(ts, Mean(ts), ts, Mean(ts)) > 0.0
    ensures var m, sxx := Mean(ts), Dot(ts, Mean(ts), ts, Mean(ts));
            Ratio(Dot(ts, m - lag, ts, m - lag), sxx) == 1.0 + Ratio(Mul(|ts| as real, Square(lag)), sxx)
  {
    hide Dot, Sum, Mean, Mul, Square, Deviation, Ratio;
    var m := Mean(ts);
    CentreMoves(ts, m, lag);
    DeviationsCancel(ts);
    TimesZero(lag);
    OneAndTheRest(Dot(ts, m, ts, m), Mul(|ts| as real, Square(lag)));
  }

  lemma OneAndTheRest(s: real, y: real)
    requires s > 0.0
    ensures Ratio(s + y, s) == 1.0 + Ratio(y, s)
  {
    QuotientOfSum(s, y, s);
    assert s / s == 1.0;
  }

  lemma WidthAtReference(trend: Trend)
    requires trend.n > 0 && trend.sxx > 0.0
    ensures Mul(trend.n as real, IntervalSquared(trend, trend.reference)) == Mul(3.8416 * trend.residualVariance, trend.n as real + 1.0)
  {
    hide Mul, Square;
    SquareOfZero();
    Pooled(3.8416 * trend.residualVariance, trend.n as real);
  }

  lemma LagIsRounding(m: real, first: int, reference: int)
    requires reference == first + Truncate(m * 1000.0)
    ensures -0.001 < m - (reference - first) as real / 1000.0 < 0.001
  {
    TruncateBounds(m * 1000.0);
  }

  lemma TimesZero(x: real)
    ensures Mul(x, 0.0) == 0.0
  {
  }

  lemma EachAndOneMore(n: real)
    requires n > 0.0
    ensures Mul(n, 1.0 + 1.0 / n) == n + 1.0
  {
  }

  lemma Pooled(unit: real, n: real)
    requires n > 0.0
    ensures Mul(n, Mul(unit, 1.0 + 1.0 / n)) == Mul(unit, n + 1.0)
  {
    EachAndOneMore(n);
    assert n * (unit * (1.0 + 1.0 / n)) == unit * (n * (1.0 + 1.0 / n));
  }
}
