/**
 * The pandas Series operations the indicators are built from, on position-aligned
 * sequences. A value is `Option<real>`: `None` is pandas' NaN (a missing or
 * undefined value) and also stands for the IEEE infinities a division by zero
 * produces, which this model does not distinguish from NaN.
 */
module Series {
  import opened Stats

  datatype Option<+T> = None | Some(value: T)

  /** A series of prices with no missing value. */
  function Lift(s: seq<real>): (r: seq<Option<real>>)
    ensures |r| == |s|
    ensures forall i :: 0 <= i < |s| ==> r[i] == Some(s[i])
  {
    seq(|s|, i requires 0 <= i < |s| => Some(s[i]))
  }

  predicate AllSome(t: seq<Option<real>>)
  {
    forall j :: 0 <= j < |t| ==> t[j].Some?
  }

  function Values(t: seq<Option<real>>): (v: seq<real>)
    requires AllSome(t)
    ensures |v| == |t|
    ensures forall j :: 0 <= j < |t| ==> t[j] == Some(v[j])
  {
    seq(|t|, j requires 0 <= j < |t| => t[j].value)
  }

  // ---------------------------------------------------------------------------
  // Element-wise arithmetic with NaN propagation

  function Add(x: Option<real>, y: Option<real>): Option<real>
  {
    if x.Some? && y.Some? then Some(x.value + y.value) else None
  }

  function Sub(x: Option<real>, y: Option<real>): Option<real>
  {
    if x.Some? && y.Some? then Some(x.value - y.value) else None
  }

  function Mul(x: Option<real>, y: Option<real>): Option<real>
  {
    if x.Some? && y.Some? then Some(x.value * y.value) else None
  }

  /** Division: 0/0 is NaN and x/0 is an infinity; both are `None` here. */
  function Div(x: Option<real>, y: Option<real>): Option<real>
  {
    if x.Some? && y.Some? && y.value != 0.0 then Some(x.value / y.value) else None
  }

  function Abs(x: Option<real>): Option<real>
  {
    if x.Some? then Some(Magnitude(x.value)) else None
  }

  function Neg(x: Option<real>): Option<real>
  {
    if x.Some? then Some(-x.value) else None
  }

  // ---------------------------------------------------------------------------
  // diff, clip, cumsum

  /** `Series.diff()`: the change from the previous position; the first is NaN. */
  function Diff(s: seq<real>): (d: seq<Option<real>>)
    ensures |d| == |s|
    ensures |s| > 0 ==> d[0] == None
  {
    seq(|s|, i requires 0 <= i < |s| => if i == 0 then None else Some(s[i] - s[i - 1]))
  }

  /** `clip(lower=0)`: negative values become 0, NaN stays NaN. */
  function ClipLower(s: seq<Option<real>>): (r: seq<Option<real>>)
    ensures |r| == |s|
  {
    seq(|s|, i requires 0 <= i < |s| => if s[i].Some? && s[i].value < 0.0 then Some(0.0) else s[i])
  }

  /** `clip(upper=0)`: positive values become 0, NaN stays NaN. */
  function ClipUpper(s: seq<Option<real>>): (r: seq<Option<real>>)
    ensures |r| == |s|
  {
    seq(|s|, i requires 0 <= i < |s| => if s[i].Some? && s[i].value > 0.0 then Some(0.0) else s[i])
  }

  lemma ClipSigns(s: seq<Option<real>>, i: int)
    requires 0 <= i < |s|
    ensures ClipLower(s)[i].Some? <==> s[i].Some?
    ensures ClipUpper(s)[i].Some? <==> s[i].Some?
    ensures s[i].Some? ==> 0.0 <= ClipLower(s)[i].value && ClipUpper(s)[i].value <= 0.0
    ensures s[i].Some? ==> ClipLower(s)[i].value + ClipUpper(s)[i].value == s[i].value
    ensures s[i].Some? ==> ClipLower(s)[i].value == (if s[i].value < 0.0 then 0.0 else s[i].value)
    ensures s[i].Some? ==> ClipUpper(s)[i].value == (if s[i].value > 0.0 then 0.0 else s[i].value)
  {
  }

  /** `cumsum()`: the running total through each position. */
  function CumSum(s: seq<real>): (c: seq<real>)
    ensures |c| == |s|
  {
    seq(|s|, i requires 0 <= i < |s| => Sum(s[..i + 1]))
  }

  /** The running total advances by the current element at every step. */
  lemma CumSumStep(s: seq<real>, i: int)
    requires 0 <= i < |s|
    ensures CumSum(s)[i] == (if i == 0 then 0.0 else CumSum(s)[i - 1]) + s[i]
  {
    var c := CumSum(s);
    assert c[i] == Sum(s[..i + 1]);
    assert s[..i + 1][..i] == s[..i];
    if i > 0 {
      assert c[i - 1] == Sum(s[..i]);
    }
  }

  // ---------------------------------------------------------------------------
  // Rolling windows

  /** The trailing window of length `w` that ends at position `i`. */
  function Window<T>(s: seq<T>, i: int, w: int): seq<T>
    requires 1 <= w <= i + 1 <= |s|
  {
    s[i + 1 - w..i + 1]
  }

  /**
   * `rolling(window=w)` with its default `min_periods=w` yields a value at `i`
   * only when the whole trailing window exists and holds no NaN.
   */
  predicate Full(s: seq<Option<real>>, i: int, w: int)
  {
    0 <= i < |s| && 1 <= w <= i + 1 && forall j :: i + 1 - w <= j <= i ==> s[j].Some?
  }

  /** The reduction a rolling window applies; the sample std takes the square root as a parameter. */
  datatype Reducer = MeanOf | MinOf | MaxOf | StdOf(sqrt: real -> real)

  /** `sqrt` is the exact non-negative square root on non-negative arguments. */
  ghost predicate IsSqrt(sqrt: real -> real)
  {
    sqrt(0.0) == 0.0 && forall x :: 0.0 <= x ==> 0.0 <= sqrt(x) && sqrt(x) * sqrt(x) == x
  }

  function Reduce(k: Reducer, t: seq<real>): (r: Option<real>)
    requires |t| >= 1
    ensures r.None? <==> k.StdOf? && |t| < 2
  {
    match k
    case MeanOf => Some(Mean(t))
    case MinOf => Some(Min(t))
    case MaxOf => Some(Max(t))
    // ddof=1 divides by |t| - 1: a one-element window has no sample std (NaN)
    case StdOf(sqrt) => if |t| < 2 then None else Some(sqrt(SampleVariance(t)))
  }

  /** The sliding-window reduction shared by every indicator. */
  function Rolling(s: seq<Option<real>>, w: int, k: Reducer): (r: seq<Option<real>>)
    requires w >= 0
    ensures |r| == |s|
    ensures forall i :: 0 <= i < |s| && r[i].Some? ==> Full(s, i, w)
  {
    seq(|s|, i requires 0 <= i < |s| =>
      if Full(s, i, w) then Reduce(k, Values(Window(s, i, w))) else None)
  }

  /** `rolling(window=0)` is accepted and yields NaN everywhere. */
  lemma RollingEmptyWindow(s: seq<Option<real>>, k: Reducer, i: int)
    requires 0 <= i < |s|
    ensures Rolling(s, 0, k)[i] == None
  {
  }

  /** Over a series with no NaN, the rolling value is the reduction of the trailing window. */
  lemma RollingOfLifted(p: seq<real>, w: int, k: Reducer, i: int)
    requires 1 <= w && 0 <= i < |p|
    ensures i + 1 < w ==> Rolling(Lift(p), w, k)[i] == None
    ensures w <= i + 1 ==> Rolling(Lift(p), w, k)[i] == Reduce(k, p[i + 1 - w..i + 1])
  {
    if w <= i + 1 {
      var s := Lift(p);
      assert Full(s, i, w);
      assert Values(Window(s, i, w)) == p[i + 1 - w..i + 1];
    }
  }

  /** Over a series without NaN, the rolling minimum is the minimum of each full trailing window. */
  lemma RollingMinAt(p: seq<real>, w: int, i: int)
    requires 1 <= w && 0 <= i < |p|
    ensures Rolling(Lift(p), w, MinOf)[i] == if w <= i + 1 then Some(Min(p[i + 1 - w..i + 1])) else None
  {
    RollingOfLifted(p, w, MinOf, i);
  }

  /** Over a series without NaN, the rolling maximum is the maximum of each full trailing window. */
  lemma RollingMaxAt(p: seq<real>, w: int, i: int)
    requires 1 <= w && 0 <= i < |p|
    ensures Rolling(Lift(p), w, MaxOf)[i] == if w <= i + 1 then Some(Max(p[i + 1 - w..i + 1])) else None
  {
    RollingOfLifted(p, w, MaxOf, i);
  }

  /** Over a series without NaN, the rolling sample deviation of a full window of at least two values. */
  lemma RollingStdAt(p: seq<real>, w: int, sqrt: real -> real, i: int)
    requires 2 <= w <= i + 1 <= |p|
    ensures Rolling(Lift(p), w, StdOf(sqrt))[i] == Some(sqrt(SampleVariance(p[i + 1 - w..i + 1])))
  {
    RollingOfLifted(p, w, StdOf(sqrt), i);
  }

  /** Where a rolling mean is defined it is the mean of the window's values. */
  lemma RollingMeanAt(s: seq<Option<real>>, w: int, i: int)
    requires 1 <= w && 0 <= i < |s|
    ensures Rolling(s, w, MeanOf)[i].Some? <==> Full(s, i, w)
    ensures Full(s, i, w) ==> Rolling(s, w, MeanOf)[i] == Some(Mean(Values(Window(s, i, w))))
  {
  }

  /** A rolling mean stays within any bounds that every defined input value respects. */
  lemma RollingMeanWithin(s: seq<Option<real>>, w: int, lo: real, hi: real, i: int)
    requires 1 <= w && 0 <= i < |s|
    requires forall j :: 0 <= j < |s| && s[j].Some? ==> lo <= s[j].value <= hi
    ensures Rolling(s, w, MeanOf)[i].Some? ==> lo <= Rolling(s, w, MeanOf)[i].value <= hi
  {
    if Full(s, i, w) {
      var v := Values(Window(s, i, w));
      assert forall j :: 0 <= j < |v| ==> v[j] == s[i + 1 - w + j].value;
      MeanAtLeast(v, lo);
      MeanAtMost(v, hi);
    }
  }

  /** A rolling mean of values that are never negative is never negative. */
  lemma RollingMeanNonNegative(s: seq<Option<real>>, w: int, i: int)
    requires 1 <= w && 0 <= i < |s|
    requires forall j :: 0 <= j < |s| && s[j].Some? ==> 0.0 <= s[j].value
    ensures Rolling(s, w, MeanOf)[i].Some? ==> 0.0 <= Rolling(s, w, MeanOf)[i].value
  {
    if Full(s, i, w) {
      var v := Values(Window(s, i, w));
      assert forall j :: 0 <= j < |v| ==> v[j] == s[i + 1 - w + j].value;
      MeanAtLeast(v, 0.0);
    }
  }

  // ---------------------------------------------------------------------------
  // Exponentially weighted mean

  /**
   * `ewm(alpha=alpha, adjust=False).mean()` on a series with no NaN: seeded with the
   * first value, then `r[i] = alpha * s[i] + (1 - alpha) * r[i - 1]`.
   */
  function Ewm(s: seq<real>, alpha: real): (r: seq<real>)
    ensures |r| == |s|
    ensures |s| > 0 ==> r[0] == s[0]
  {
    if |s| <= 1 then s
    else
      var prev := Ewm(s[..|s| - 1], alpha);
      prev + [alpha * s[|s| - 1] + (1.0 - alpha) * prev[|s| - 2]]
  }

  /** The weighted mean is causal: a prefix of the input determines that prefix of the output. */
  lemma {:induction false} EwmPrefix(s: seq<real>, alpha: real, k: int)
    requires 0 <= k <= |s|
    ensures Ewm(s[..k], alpha) == Ewm(s, alpha)[..k]
  {
    if k < |s| && |s| > 1 {
      var init := s[..|s| - 1];
      EwmPrefix(init, alpha, k);
      assert init[..k] == s[..k];
    } else if k == |s| {
      assert s[..k] == s;
    }
  }

  /** The `adjust=False` recurrence holds at every position after the seed. */
  lemma EwmStep(s: seq<real>, alpha: real, i: int)
    requires 1 <= i < |s|
    ensures Ewm(s, alpha)[i] == alpha * s[i] + (1.0 - alpha) * Ewm(s, alpha)[i - 1]
  {
    EwmPrefix(s, alpha, i + 1);
    EwmPrefix(s, alpha, i);
    var pre := s[..i + 1];
    assert pre[..i] == s[..i];
  }

  lemma ConvexBetween(alpha: real, x: real, y: real, lo: real, hi: real)
    requires 0.0 < alpha <= 1.0
    requires lo <= x <= hi && lo <= y <= hi
    ensures lo <= alpha * x + (1.0 - alpha) * y <= hi
  {
    var beta := 1.0 - alpha;
    MulNonNegative(alpha, x - lo);
    MulNonNegative(beta, y - lo);
    MulNonNegative(alpha, hi - x);
    MulNonNegative(beta, hi - y);
    assert alpha * x + beta * y - lo == alpha * (x - lo) + beta * (y - lo);
    assert hi - (alpha * x + beta * y) == alpha * (hi - x) + beta * (hi - y);
  }

  /** One step of the recurrence keeps the mean inside any interval holding the new price. */
  lemma EwmStepWithin(s: seq<real>, alpha: real, i: int, lo: real, hi: real)
    requires 0.0 < alpha <= 1.0
    requires 1 <= i < |s|
    requires lo <= s[i] <= hi && lo <= Ewm(s, alpha)[i - 1] <= hi
    ensures lo <= Ewm(s, alpha)[i] <= hi
  {
    EwmStep(s, alpha, i);
    ConvexBetween(alpha, s[i], Ewm(s, alpha)[i - 1], lo, hi);
  }

  /** For `0 < alpha <= 1` the weighted mean never leaves the range of the prices seen so far. */
  lemma EwmWithinRange(s: seq<real>, alpha: real, i: int)
    requires 0.0 < alpha <= 1.0
    requires 0 <= i < |s|
    ensures Min(s[..i + 1]) <= Ewm(s, alpha)[i] <= Max(s[..i + 1])
  {
    var seen := s[..i + 1];
    var lo, hi := Min(seen), Max(seen);
    forall j | 0 <= j <= i ensures lo <= s[j] <= hi {
      assert seen[j] == s[j];
    }
    EwmWithinBounds(s, alpha, i, lo, hi);
  }

  /** Any bounds that hold every price up to `i` also hold the weighted mean at `i`. */
  lemma {:induction false} EwmWithinBounds(s: seq<real>, alpha: real, i: int, lo: real, hi: real)
    requires 0.0 < alpha <= 1.0
    requires 0 <= i < |s|
    requires forall j :: 0 <= j <= i ==> lo <= s[j] <= hi
    ensures lo <= Ewm(s, alpha)[i] <= hi
  {
    if i > 0 {
      EwmWithinBounds(s, alpha, i - 1, lo, hi);
      EwmStepWithin(s, alpha, i, lo, hi);
    }
  }

  /** A flat input is a fixed point of the weighted mean, whatever the smoothing factor. */
  lemma EwmOfFlat(s: seq<real>, alpha: real)
    requires Flat(s)
    ensures Ewm(s, alpha) == s
  {
    forall i | 0 <= i < |s|
      ensures Ewm(s, alpha)[i] == s[i]
    {
      EwmOfFlatAt(s, alpha, i);
    }
  }

  lemma {:induction false} EwmOfFlatAt(s: seq<real>, alpha: real, i: int)
    requires Flat(s) && 0 <= i < |s|
    ensures Ewm(s, alpha)[i] == s[i]
  {
    if i > 0 {
      EwmOfFlatAt(s, alpha, i - 1);
      EwmStep(s, alpha, i);
      assert s[i - 1] == s[i];
      assert alpha * s[i] + (1.0 - alpha) * s[i] == s[i];
    }
  }
}
