/**
 * Reductions over a finite window of prices: the sum, mean, minimum, maximum and
 * sample variance that pandas' rolling windows compute. All arithmetic is exact
 * (`real`); floating-point rounding is not modelled.
 */
module Stats {

  /** Sum of a sequence, accumulated from the left as a running total would be. */
  function Sum(t: seq<real>): real
  {
    if |t| == 0 then 0.0 else Sum(t[..|t| - 1]) + t[|t| - 1]
  }

  /** Peeling the first element instead of the last gives the same sum. */
  lemma {:induction false} SumFront(t: seq<real>)
    requires |t| > 0
    ensures Sum(t) == t[0] + Sum(t[1..])
  {
    if |t| > 1 {
      SumFront(t[..|t| - 1]);
      assert t[..|t| - 1][1..] == t[1..][..|t| - 2];
    }
  }

  /** Sliding a window one step: the sum loses its first element and gains the new last one. */
  lemma SumSlide(before: seq<real>, after: seq<real>)
    requires |before| == |after| >= 1 && before[1..] == after[..|after| - 1]
    ensures Sum(after) == Sum(before) - before[0] + after[|after| - 1]
  {
    SumFront(before);
  }

  /** Sliding a window one step moves its mean by the entering minus the leaving element, over the length. */
  lemma MeanSlide(before: seq<real>, after: seq<real>)
    requires |before| == |after| >= 1 && before[1..] == after[..|after| - 1]
    ensures Mean(after) == Mean(before) + (after[|after| - 1] - before[0]) / |before| as real
  {
    SumSlide(before, after);
    var n := |before| as real;
    SplitQuotient(Sum(before), after[|after| - 1] - before[0], n);
  }

  /** Division by a non-zero number distributes over a sum. */
  lemma SplitQuotient(x: real, y: real, n: real)
    requires n != 0.0
    ensures (x + y) / n == x / n + y / n
  {
  }

  lemma {:induction false} SumAtLeast(t: seq<real>, lo: real)
    requires forall j :: 0 <= j < |t| ==> lo <= t[j]
    ensures |t| as real * lo <= Sum(t)
  {
    if |t| > 0 {
      SumAtLeast(t[..|t| - 1], lo);
    }
  }

  lemma {:induction false} SumAtMost(t: seq<real>, hi: real)
    requires forall j :: 0 <= j < |t| ==> t[j] <= hi
    ensures Sum(t) <= |t| as real * hi
  {
    if |t| > 0 {
      SumAtMost(t[..|t| - 1], hi);
    }
  }

  lemma {:induction false} SumNonNegative(t: seq<real>)
    requires forall j :: 0 <= j < |t| ==> 0.0 <= t[j]
    ensures 0.0 <= Sum(t)
  {
    if |t| > 0 {
      SumNonNegative(t[..|t| - 1]);
    }
  }

  /** A sum of non-negative terms is zero exactly when every term is zero. */
  lemma {:induction false} SumZeroIff(t: seq<real>)
    requires forall j :: 0 <= j < |t| ==> 0.0 <= t[j]
    ensures Sum(t) == 0.0 <==> forall j :: 0 <= j < |t| ==> t[j] == 0.0
  {
    if |t| > 0 {
      var init := t[..|t| - 1];
      SumZeroIff(init);
      SumNonNegative(init);
      if Sum(t) == 0.0 {
        assert forall j :: 0 <= j < |t| - 1 ==> t[j] == init[j];
      }
    }
  }

  /** The absolute value `|x|`. */
  function Magnitude(x: real): (m: real)
    ensures 0.0 <= m && (m == x || m == -x)
  {
    if x < 0.0 then -x else x
  }

  function Min(t: seq<real>): (m: real)
    requires |t| > 0
    ensures forall j :: 0 <= j < |t| ==> m <= t[j]
    ensures exists j :: 0 <= j < |t| && t[j] == m
  {
    if |t| == 1 then t[0]
    else
      var m' := Min(t[..|t| - 1]);
      if t[|t| - 1] < m' then t[|t| - 1] else m'
  }

  function Max(t: seq<real>): (m: real)
    requires |t| > 0
    ensures forall j :: 0 <= j < |t| ==> t[j] <= m
    ensures exists j :: 0 <= j < |t| && t[j] == m
  {
    if |t| == 1 then t[0]
    else
      var m' := Max(t[..|t| - 1]);
      if t[|t| - 1] > m' then t[|t| - 1] else m'
  }

  /** Arithmetic mean (pandas `mean`). */
  function Mean(t: seq<real>): real
    requires |t| > 0
  {
    Sum(t) / |t| as real
  }

  lemma MeanAtLeast(t: seq<real>, lo: real)
    requires |t| > 0
    requires forall j :: 0 <= j < |t| ==> lo <= t[j]
    ensures lo <= Mean(t)
  {
    SumAtLeast(t, lo);
    var n := |t| as real;
    assert Mean(t) * n == Sum(t);
  }

  lemma MeanAtMost(t: seq<real>, hi: real)
    requires |t| > 0
    requires forall j :: 0 <= j < |t| ==> t[j] <= hi
    ensures Mean(t) <= hi
  {
    SumAtMost(t, hi);
    var n := |t| as real;
    assert Mean(t) * n == Sum(t);
  }

  /** The mean of a window lies between the window's minimum and maximum. */
  lemma MeanWithinRange(t: seq<real>)
    requires |t| > 0
    ensures Min(t) <= Mean(t) <= Max(t)
  {
    MeanAtLeast(t, Min(t));
    MeanAtMost(t, Max(t));
  }

  /** Every element of the window is the same value. */
  predicate Flat(t: seq<real>)
  {
    forall j, k :: 0 <= j < |t| && 0 <= k < |t| ==> t[j] == t[k]
  }

  /** The mean of a flat window is its common value. */
  lemma MeanOfFlat(t: seq<real>)
    requires |t| > 0 && Flat(t)
    ensures Mean(t) == t[0]
  {
    MeanAtLeast(t, t[0]);
    MeanAtMost(t, t[0]);
  }

  function SquaredDeviations(t: seq<real>, m: real): (d: seq<real>)
    ensures |d| == |t|
    ensures forall j :: 0 <= j < |t| ==> d[j] == (t[j] - m) * (t[j] - m)
  {
    seq(|t|, j requires 0 <= j < |t| => (t[j] - m) * (t[j] - m))
  }

  /**
   * Sample variance with one delta degree of freedom (pandas' default `ddof=1`):
   * the squared deviations from the mean, summed and divided by `|t| - 1`.
   */
  function SampleVariance(t: seq<real>): real
    requires |t| >= 2
  {
    Sum(SquaredDeviations(t, Mean(t))) / (|t| - 1) as real
  }

  lemma VarianceNonNegative(t: seq<real>)
    requires |t| >= 2
    ensures 0.0 <= SampleVariance(t)
  {
    var d := SquaredDeviations(t, Mean(t));
    forall j | 0 <= j < |d| ensures 0.0 <= d[j] {
      SquareNonNegative(t[j] - Mean(t));
    }
    SumAtLeast(d, 0.0);
    var n := (|t| - 1) as real;
    var v := SampleVariance(t);
    assert v * n == Sum(d);
  }

  lemma SquareNonNegative(x: real)
    ensures 0.0 <= x * x
  {
    if x < 0.0 {
      assert x * x == (-x) * (-x);
      MulNonNegative(-x, -x);
    } else {
      MulNonNegative(x, x);
    }
  }

  lemma MulNonNegative(a: real, b: real)
    requires 0.0 <= a && 0.0 <= b
    ensures 0.0 <= a * b
  {
  }

  /** A flat window has no spread. */
  lemma VarianceOfFlat(t: seq<real>)
    requires |t| >= 2 && Flat(t)
    ensures SampleVariance(t) == 0.0
  {
    MeanOfFlat(t);
    var d := SquaredDeviations(t, Mean(t));
    SumAtLeast(d, 0.0);
    SumAtMost(d, 0.0);
  }

  /** Element-wise product of two aligned columns (for example close times volume). */
  function Products(c: seq<real>, v: seq<real>): (p: seq<real>)
    requires |c| == |v|
    ensures |p| == |c|
  {
    seq(|c|, j requires 0 <= j < |c| => c[j] * v[j])
  }

  /** Dropping the last row of both columns drops the last product. */
  lemma ProductsInit(c: seq<real>, v: seq<real>)
    requires |c| == |v| > 0
    ensures Sum(Products(c, v)) == Sum(Products(c[..|c| - 1], v[..|v| - 1])) + c[|c| - 1] * v[|v| - 1]
  {
    var n := |c|;
    var p, p' := Products(c, v), Products(c[..n - 1], v[..n - 1]);
    assert p[n - 1] == c[n - 1] * v[n - 1];
    assert forall j :: 0 <= j < n - 1 ==> p[..n - 1][j] == p'[j];
    assert p[..n - 1] == p';
  }

  /**
   * With non-negative weights, the weighted sum of values at least `lo` is at least
   * `lo` times the total weight.
   */
  lemma {:induction false} WeightedSumAtLeast(c: seq<real>, v: seq<real>, lo: real)
    requires |c| == |v|
    requires forall j :: 0 <= j < |c| ==> lo <= c[j] && 0.0 <= v[j]
    ensures lo * Sum(v) <= Sum(Products(c, v))
  {
    var n := |c|;
    if n > 0 {
      WeightedSumAtLeast(c[..n - 1], v[..n - 1], lo);
      ProductsInit(c, v);
      WeightStepAtLeast(Sum(v[..n - 1]), Sum(Products(c[..n - 1], v[..n - 1])), c[n - 1], v[n - 1], lo);
    }
  }

  /** The upper counterpart of WeightedSumAtLeast. */
  lemma {:induction false} WeightedSumAtMost(c: seq<real>, v: seq<real>, hi: real)
    requires |c| == |v|
    requires forall j :: 0 <= j < |c| ==> c[j] <= hi && 0.0 <= v[j]
    ensures Sum(Products(c, v)) <= hi * Sum(v)
  {
    var n := |c|;
    if n > 0 {
      WeightedSumAtMost(c[..n - 1], v[..n - 1], hi);
      ProductsInit(c, v);
      WeightStepAtMost(Sum(v[..n - 1]), Sum(Products(c[..n - 1], v[..n - 1])), c[n - 1], v[n - 1], hi);
    }
  }

  lemma WeightStepAtLeast(total: real, weighted: real, x: real, w: real, lo: real)
    requires lo * total <= weighted && lo <= x && 0.0 <= w
    ensures lo * (total + w) <= weighted + x * w
  {
    assert 0.0 <= (x - lo) * w;
    assert lo * (total + w) == lo * total + lo * w;
  }

  lemma WeightStepAtMost(total: real, weighted: real, x: real, w: real, hi: real)
    requires weighted <= hi * total && x <= hi && 0.0 <= w
    ensures weighted + x * w <= hi * (total + w)
  {
    assert 0.0 <= (hi - x) * w;
    assert hi * (total + w) == hi * total + hi * w;
  }

  /**
   * A weighted mean with non-negative weights and a positive total weight is at
   * least any lower bound of the values averaged.
   */
  lemma WeightedMeanAtLeast(c: seq<real>, v: seq<real>, lo: real)
    requires |c| == |v|
    requires forall j :: 0 <= j < |c| ==> lo <= c[j] && 0.0 <= v[j]
    requires 0.0 < Sum(v)
    ensures lo <= Sum(Products(c, v)) / Sum(v)
  {
    WeightedSumAtLeast(c, v, lo);
    RatioAtLeast(Products(c, v), v, lo);
  }

  /** The upper counterpart of WeightedMeanAtLeast. */
  lemma WeightedMeanAtMost(c: seq<real>, v: seq<real>, hi: real)
    requires |c| == |v|
    requires forall j :: 0 <= j < |c| ==> c[j] <= hi && 0.0 <= v[j]
    requires 0.0 < Sum(v)
    ensures Sum(Products(c, v)) / Sum(v) <= hi
  {
    WeightedSumAtMost(c, v, hi);
    RatioAtMost(Products(c, v), v, hi);
  }

  /** In particular it lies between the smallest and the largest value averaged. */
  lemma WeightedMeanWithinRange(c: seq<real>, v: seq<real>)
    requires |c| == |v| > 0
    requires forall j :: 0 <= j < |v| ==> 0.0 <= v[j]
    requires Sum(v) != 0.0
    ensures Min(c) <= Sum(Products(c, v)) / Sum(v) <= Max(c)
  {
    SumNonNegative(v);
    WeightedMeanAtLeast(c, v, Min(c));
    WeightedMeanAtMost(c, v, Max(c));
  }

  lemma RatioAtLeast(w: seq<real>, v: seq<real>, lo: real)
    requires 0.0 < Sum(v) && lo * Sum(v) <= Sum(w)
    ensures lo <= Sum(w) / Sum(v)
  {
    DivAtLeast(Sum(w), Sum(v), lo);
  }

  lemma RatioAtMost(w: seq<real>, v: seq<real>, hi: real)
    requires 0.0 < Sum(v) && Sum(w) <= hi * Sum(v)
    ensures Sum(w) / Sum(v) <= hi
  {
    DivAtMost(Sum(w), Sum(v), hi);
  }

  lemma DivAtLeast(weighted: real, total: real, lo: real)
    requires 0.0 < total && lo * total <= weighted
    ensures lo <= weighted / total
  {
    var q := weighted / total;
    assert q * total == weighted;
  }

  lemma DivAtMost(weighted: real, total: real, hi: real)
    requires 0.0 < total && weighted <= hi * total
    ensures weighted / total <= hi
  {
    var q := weighted / total;
    assert q * total == weighted;
  }
}
