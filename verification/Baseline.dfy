/** The rolling baseline of a signal and the deviation test over it, in exact reals. */
module Baseline {
  import opened Domain
  import opened Sums

  /** The newest `capacity` observations. */
  function Window(history: seq<real>, capacity: nat): (r: seq<real>)
    ensures |r| == if |history| < capacity then |history| else capacity
    ensures exists older :: history == older + r
  {
    var dropped := if |history| < capacity then 0 else |history| - capacity;
    assert history == history[..dropped] + history[dropped..];
    history[dropped..]
  }

  function MeanOf(xs: seq<real>): real {
    if xs == [] then 0.0 else Mean(xs)
  }

  function VarianceOf(xs: seq<real>): real {
    if xs == [] then 0.0 else Dot(xs, Mean(xs), xs, Mean(xs)) / |xs| as real
  }

  /** A z-score kept as its deviation and variance: the score is deviation / √variance. */
  datatype Score = Score(deviation: real, variance: real) {

    /** |deviation / √variance| >= threshold, without the root. */
    predicate Reaches(threshold: real) {
      threshold <= 0.0 || Square(deviation) >= Mul(Square(threshold), variance)
    }
  }

  datatype DeviationKind = StaticRule | BaselineExcursion

  class Baseline {
    var samples: seq<real>
    const capacity: nat
    const minSamples: nat
    var mean: real
    var variance: real
    ghost var history: seq<real>

    ghost predicate Valid()
      reads this
    {
      && minSamples <= capacity
      && samples == Window(history, capacity)
      && mean == MeanOf(samples)
      && variance == VarianceOf(samples)
    }

    constructor (capacity: nat, minSamples: nat)
      ensures Valid() && history == []
      ensures this.capacity == capacity && this.minSamples == if minSamples < capacity then minSamples else capacity
    {
      this.samples := [];
      this.capacity := capacity;
      this.minSamples := if minSamples < capacity then minSamples else capacity;
      this.mean := 0.0;
      this.variance := 0.0;
      this.history := [];
    }

    method Observe(value: real)
      requires Valid()
      modifies this
      ensures Valid() && history == old(history) + [value]
    {
      samples := samples + [value];
      history := history + [value];
      if |samples| > capacity {
        samples := samples[1..];
      }
      assert samples == Window(history, capacity);
      Recompute();
    }

    method Recompute()
      modifies this`mean, this`variance
      ensures mean == MeanOf(samples) && variance == VarianceOf(samples)
    {
      if samples == [] {
        mean, variance := 0.0, 0.0;
      } else {
        mean := Sum(samples) / |samples| as real;
        variance := Dot(samples, mean, samples, mean) / |samples| as real;
      }
    }

    function IsReady(): bool
      reads this
    {
      |samples| >= minSamples
    }

    method ZScore(value: real) returns (r: Option<Score>)
      requires Valid()
      ensures r == ScoreOf(Window(history, capacity), minSamples, value)
    {
      if !IsReady() || variance <= 0.0 {
        return None;
      }
      return Some(Score(value - mean, variance));
    }

    method Detect(value: real, threshold: real, hardLimit: Option<real>) returns (r: Option<DeviationKind>)
      requires Valid()
      ensures r == DeviationOf(Window(history, capacity), minSamples, value, threshold, hardLimit)
    {
      if hardLimit.Some? && value > hardLimit.value {
        return Some(StaticRule);
      }
      var score := ZScore(value);
      if score.Some? && score.value.Reaches(threshold) {
        return Some(BaselineExcursion);
      }
      return None;
    }
  }

  function ScoreOf(window: seq<real>, minSamples: nat, value: real): Option<Score> {
    if |window| < minSamples || VarianceOf(window) <= 0.0 then None
    else Some(Score(value - MeanOf(window), VarianceOf(window)))
  }

  function DeviationOf(window: seq<real>, minSamples: nat, value: real, threshold: real, hardLimit: Option<real>)
    : Option<DeviationKind>
  {
    if hardLimit.Some? && value > hardLimit.value then Some(StaticRule)
    else
      var score := ScoreOf(window, minSamples, value);
      if score.Some? && score.value.Reaches(threshold) then Some(BaselineExcursion) else None
  }

  // ---------------------------------------------------------------- the window's statistics

  lemma {:induction false} DotShift(xs: seq<real>, a: real)
    ensures Dot(xs, a, xs, a) == Dot(xs, 0.0, xs, 0.0) - 2.0 * Mul(a, Sum(xs)) + Mul(|xs| as real, Square(a))
  {
    if xs != [] {
      hide Mul, Square;
      var k := |xs| - 1;
      DotShift(xs[..k], a);
      Shift(xs[k], a);
      Distribute(a, Sum(xs[..k]), xs[k]);
      Distribute(k as real, 1.0, Square(a));
    }
  }

  lemma Shift(x: real, a: real)
    ensures Mul(x - a, x - a) == Mul(x - 0.0, x - 0.0) - 2.0 * Mul(a, x) + Mul(1.0, Square(a))
  {
  }

  /** n * variance is the sum of squares less n * mean². */
  lemma VarianceIdentity(xs: seq<real>)
    ensures Mul(|xs| as real, VarianceOf(xs)) == Dot(xs, 0.0, xs, 0.0) - Mul(|xs| as real, Square(MeanOf(xs)))
  {
    if xs != [] {
      hide Dot, Sum, Mul, Square;
      var n, m := |xs| as real, Mean(xs);
      DotShift(xs, m);
      DotSquareNonNegative(xs, m);
      Averages(n, Dot(xs, m, xs, m));
      MeanTwice(n, m, Sum(xs));
    }
  }

  predicate Flat(xs: seq<real>) {
    forall j, k :: 0 <= j < |xs| && 0 <= k < |xs| ==> xs[j] == xs[k]
  }

  /** The variance is never negative, and zero exactly for one repeated value. */
  lemma VarianceSign(xs: seq<real>)
    ensures VarianceOf(xs) >= 0.0
    ensures VarianceOf(xs) == 0.0 <==> Flat(xs)
  {
    if xs != [] {
      hide Dot, Mean;
      var m := Mean(xs);
      DotSquareNonNegative(xs, m);
      Averages(|xs| as real, Dot(xs, m, xs, m));
      if Flat(xs) {
        MeanOfEqual(xs);
      }
    }
  }

  lemma MeanOfEqual(xs: seq<real>)
    requires xs != [] && Flat(xs)
    ensures Mean(xs) == xs[0]
  {
    SumOfEqual(xs, xs[0]);
  }

  /** A score is withheld exactly from an unready baseline and from a window of one repeated value. */
  lemma ScoreWithheldIff(window: seq<real>, minSamples: nat, value: real)
    ensures ScoreOf(window, minSamples, value).None? <==>
            |window| < minSamples || Flat(window)
  {
    hide VarianceOf, MeanOf;
    VarianceSign(window);
  }

  lemma Averages(n: real, s: real)
    requires n > 0.0 && s >= 0.0
    ensures Mul(n, s / n) == s && s / n >= 0.0 && (s / n == 0.0 <==> s == 0.0)
  {
  }

  lemma MeanTwice(n: real, m: real, sum: real)
    requires n > 0.0 && m == sum / n
    ensures Mul(m, sum) == Mul(n, Square(m))
  {
    assert sum == n * m;
  }

  /**
   * The hard limit alone decides the static rule. An excursion is a value within the limit whose
   * squared deviation, once for every value of a ready window that varies, reaches the squared
   * threshold times the window's own squared deviations.
   */
  lemma DeviatesIff(window: seq<real>, minSamples: nat, value: real, threshold: real, hardLimit: Option<real>)
    ensures var r := DeviationOf(window, minSamples, value, threshold, hardLimit);
            && (r == Some(StaticRule) <==> hardLimit.Some? && value > hardLimit.value)
            && (r == Some(BaselineExcursion) <==>
                && (hardLimit.None? || value <= hardLimit.value)
                && |window| >= minSamples && !Flat(window)
                && var m := Sum(window) / |window| as real;
                   threshold <= 0.0 || Mul(|window| as real, Square(value - m)) >= Mul(Square(threshold), Dot(window, m, window, m)))
  {
    hide Dot, Sum, Mul, Square, VarianceOf, MeanOf;
    ScoreWithheldIff(window, minSamples, value);
    if |window| >= minSamples && !Flat(window) {
      ReachesIff(window, value, threshold);
    }
  }

  lemma ReachesIff(window: seq<real>, value: real, threshold: real)
    requires window != []
    ensures var m := Mean(window);
            Score(value - MeanOf(window), VarianceOf(window)).Reaches(threshold) <==>
            threshold <= 0.0 || Mul(|window| as real, Square(value - m)) >= Mul(Square(threshold), Dot(window, m, window, m))
  {
    hide Dot, Sum, Mul, Square, Mean;
    var m := Mean(window);
    DotSquareNonNegative(window, m);
    Averages(|window| as real, Dot(window, m, window, m));
    Cleared(|window| as real, Square(value - m), Square(threshold), VarianceOf(window));
  }

  lemma Cleared(n: real, d: real, t: real, v: real)
    requires n > 0.0
    ensures d >= Mul(t, v) <==> Mul(n, d) >= Mul(t, Mul(n, v))
  {
    assert Mul(t, Mul(n, v)) == Mul(n, Mul(t, v));
    if d >= Mul(t, v) {
      ProductNonNegative(n, d - Mul(t, v));
    } else {
      Product(n, Mul(t, v) - d);
    }
  }

  // ---------------------------------------------------------------- the outlier bound

  /** Cauchy's inequality for deviations: their sum squared is at most n times the sum of their squares. */
  lemma {:induction false} DeviationSquared(xs: seq<real>, a: real)
    ensures Square(Deviation(xs, a)) <= Mul(|xs| as real, Dot(xs, a, xs, a))
  {
    if xs != [] {
      hide Mul, Square, Deviation;
      var k := |xs| - 1;
      DeviationSquared(xs[..k], a);
      DeviationStep(xs, a);
      CauchyStep(k as real, Deviation(xs[..k], a), Dot(xs[..k], a, xs[..k], a), xs[k] - a);
    }
  }

  lemma CauchyStep(n: real, d: real, s: real, x: real)
    requires n == 0.0 || n >= 1.0
    requires Square(d) <= Mul(n, s)
    requires n == 0.0 ==> s >= 0.0
    ensures Square(d + x) <= Mul(n + 1.0, s + Mul(x, x))
  {
    var p, q := d * x, Mul(x, x);
    assert Square(d + x) == Square(d) + 2.0 * p + q;
    assert Mul(n + 1.0, s + q) == Mul(n, s) + s + Mul(n, q) + q;
    if n == 0.0 {
      assert Mul(0.0, q) == 0.0 && Mul(0.0, s) == 0.0;
      assert d == 0.0;
    } else {
      assert Square(d - Mul(n, x)) == Square(d) - Mul(n, 2.0 * p) + Mul(n, Mul(n, q)) by { Spread(n, d, x); }
      assert Mul(n, s + Mul(n, q)) == Mul(n, s) + Mul(n, Mul(n, q)) by { Distribute(n, s, Mul(n, q)); }
      Cancel(n, 2.0 * p, s + Mul(n, q));
    }
  }

  lemma Spread(n: real, d: real, x: real)
    ensures Square(d - Mul(n, x)) == Square(d) - Mul(n, 2.0 * (d * x)) + Mul(n, Mul(n, Mul(x, x)))
  {
  }

  lemma Cancel(n: real, p: real, q: real)
    requires n > 0.0 && Mul(n, p) <= Mul(n, q)
    ensures p <= q
  {
    if p > q {
      Product(n, p - q);
      assert false;
    }
  }

  function Without(xs: seq<real>, j: nat): seq<real>
    requires j < |xs|
  {
    xs[..j] + xs[j + 1..]
  }

  lemma {:induction false} TakeOut(xs: seq<real>, j: nat, a: real)
    requires j < |xs|
    ensures Dot(xs, a, xs, a) == Dot(Without(xs, j), a, Without(xs, j), a) + Square(xs[j] - a)
    ensures Deviation(xs, a) == Deviation(Without(xs, j), a) + (xs[j] - a)
  {
    hide Mul, Deviation;
    var k := |xs| - 1;
    DeviationStep(xs, a);
    if j == k {
      assert Without(xs, j) == xs[..k];
    } else {
      TakeOut(xs[..k], j, a);
      var rest := Without(xs, j);
      assert rest[..k - 1] == Without(xs[..k], j) && rest[k - 1] == xs[k];
      DeviationStep(rest, a);
    }
  }

  /** Every value of a window lies within √(n - 1) standard deviations of its mean. */
  lemma OutlierBound(xs: seq<real>, j: nat)
    requires j < |xs|
    ensures Square(xs[j] - MeanOf(xs)) <= Mul((|xs| - 1) as real, VarianceOf(xs))
  {
    hide Dot, Deviation, Mean;
    var m, n := Mean(xs), |xs| as real;
    var rest := Without(xs, j);
    TakeOut(xs, j, m);
    DeviationsCancel(xs);
    DeviationSquared(rest, m);
    Samuelson(n, Dot(xs, m, xs, m), xs[j] - m);
  }

  lemma Samuelson(n: real, s: real, d: real)
    requires n >= 1.0
    requires Square(-d) <= Mul(n - 1.0, s - Square(d))
    ensures Square(d) <= Mul(n - 1.0, s / n)
  {
  }

  /** A window whose size is at most the threshold squared never flags one of its own values on the baseline rule. */
  lemma MembersNeverDeviate(history: seq<real>, capacity: nat, minSamples: nat, j: nat, threshold: real)
    requires var w := Window(history, capacity); j < |w| && |w| as real <= Square(threshold)
    requires threshold > 0.0
    ensures var w := Window(history, capacity); DeviationOf(w, minSamples, w[j], threshold, None) == None
  {
    hide Mul, Square, VarianceOf, MeanOf;
    var w := Window(history, capacity);
    var v, t := VarianceOf(w), Square(threshold);
    OutlierBound(w, j);
    if v > 0.0 {
      Exceeds(|w| as real, t, v);
    }
  }

  lemma Exceeds(n: real, t: real, v: real)
    requires n <= t && v > 0.0
    ensures Mul(n - 1.0, v) < Mul(t, v)
  {
    Product(t - n + 1.0, v);
    Distribute(n - 1.0, t - n + 1.0, v);
  }

  lemma {:induction false} DotOfEqual(xs: seq<real>, v: real, a: real)
    requires forall k :: 0 <= k < |xs| ==> xs[k] == v
    ensures Dot(xs, a, xs, a) == Mul(|xs| as real, Square(v - a))
  {
    if xs != [] {
      hide Square;
      var k := |xs| - 1;
      DotOfEqual(xs[..k], v, a);
      Distribute(k as real, 1.0, Square(v - a));
      assert Mul(v - a, v - a) == Square(v - a) by { SquareIsProduct(v - a); }
    }
  }

  lemma SquareIsProduct(x: real)
    ensures Mul(x, x) == Square(x)
  {
  }

  /** The bound is exact: nine equal readings and a tenth reach a score of three, whatever the step. */
  lemma TenthReadingDeviates(level: real, step: real)
    requires step != 0.0
    ensures var w := seq(9, _ => level) + [level + step];
            DeviationOf(w, 10, w[9], 3.0, None) == Some(BaselineExcursion)
  {
    var flat := seq(9, _ => level);
    var w := flat + [level + step];
    assert w[..9] == flat;
    SumOfEqual(flat, level);
    var m := Mean(w);
    assert m == level + step / 10.0;
    DotOfEqual(flat, level, m);
    var s := Dot(w, m, w, m);
    hide Dot, Sum, Mean;
    TenthScore(level, step, m, s);
  }

  lemma TenthScore(level: real, step: real, m: real, s: real)
    requires step != 0.0 && m == level + step / 10.0
    requires s == Mul(9.0, Square(level - m)) + Mul(level + step - m, level + step - m)
    ensures s > 0.0 && Square(level + step - m) >= Mul(Square(3.0), s / 10.0)
  {
    var e := step / 10.0;
    assert Square(level - m) == e * e && Mul(level + step - m, level + step - m) == 81.0 * (e * e);
    assert Square(e) > 0.0 && Square(e) == e * e;
  }
}
