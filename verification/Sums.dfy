/** Sums over samples and their deviations, shared by the trend fit and the rolling baseline. */
module Sums {

  function Sum(xs: seq<real>): real {
    if xs == [] then 0.0 else Sum(xs[..|xs| - 1]) + xs[|xs| - 1]
  }

  /** Multiplication under a name, so that proofs choose when to look inside. */
  function Mul(x: real, y: real): real {
    x * y
  }

  function Square(x: real): (r: real)
    ensures r >= 0.0 && (x != 0.0 ==> r > 0.0)
  {
    if x != 0.0 then Product(x, x); Mul(x, x) else Mul(x, x)
  }

  /** The sum of the products of deviations of `xs` from `a` and `ys` from `b`. */
  function Dot(xs: seq<real>, a: real, ys: seq<real>, b: real): real
    requires |xs| == |ys|
  {
    if xs == [] then 0.0
    else
      var k := |xs| - 1;
      Dot(xs[..k], a, ys[..k], b) + Mul(xs[k] - a, ys[k] - b)
  }

  lemma DotStep(xs: seq<real>, a: real, ys: seq<real>, b: real)
    requires |xs| == |ys| && xs != []
    ensures var k := |xs| - 1; Dot(xs, a, ys, b) == Dot(xs[..k], a, ys[..k], b) + Mul(xs[k] - a, ys[k] - b)
  {
  }

  function Mean(xs: seq<real>): real
    requires xs != []
  {
    Sum(xs) / |xs| as real
  }

  function Deviation(xs: seq<real>, a: real): real {
    Sum(xs) - Mul(|xs| as real, a)
  }

  lemma DeviationStep(xs: seq<real>, a: real)
    requires xs != []
    ensures var k := |xs| - 1; Deviation(xs, a) == Deviation(xs[..k], a) + (xs[k] - a)
  {
    Distribute((|xs| - 1) as real, 1.0, a);
  }

  /** Deviations from the mean cancel. */
  lemma DeviationsCancel(xs: seq<real>)
    requires xs != []
    ensures Deviation(xs, Mean(xs)) == 0.0
  {
  }

  lemma Product(x: real, y: real)
    requires (x > 0.0 && y > 0.0) || (x < 0.0 && y < 0.0)
    ensures Mul(x, y) > 0.0
  {
    if x < 0.0 {
      assert (-x) * (-y) > 0.0;
    }
  }

  lemma ProductNonNegative(x: real, y: real)
    requires x >= 0.0 && y >= 0.0
    ensures Mul(x, y) >= 0.0
  {
  }

  lemma Distribute(f: real, x: real, y: real)
    ensures Mul(f, x + y) == Mul(f, x) + Mul(f, y)
    ensures Mul(f + x, y) == Mul(f, y) + Mul(x, y)
  {
  }

  /** A sum of squared deviations is never negative, and zero only when nothing deviates. */
  lemma {:induction false} DotSquareNonNegative(xs: seq<real>, a: real)
    ensures Dot(xs, a, xs, a) >= 0.0
    ensures Dot(xs, a, xs, a) == 0.0 <==> forall k :: 0 <= k < |xs| ==> xs[k] == a
  {
    if xs != [] {
      var k := |xs| - 1;
      DotSquareNonNegative(xs[..k], a);
      assert Square(xs[k] - a) >= 0.0;
      assert (forall j :: 0 <= j < |xs| ==> xs[j] == a) ==> xs[k] == a && forall j :: 0 <= j < k ==> xs[..k][j] == a;
      assert (forall j :: 0 <= j < k ==> xs[..k][j] == a) && xs[k] == a ==> forall j :: 0 <= j < |xs| ==> xs[j] == a;
    }
  }

  lemma {:induction false} SumOfEqual(xs: seq<real>, a: real)
    requires forall k :: 0 <= k < |xs| ==> xs[k] == a
    ensures Sum(xs) == |xs| as real * a
  {
    if xs != [] {
      SumOfEqual(xs[..|xs| - 1], a);
    }
  }
}
