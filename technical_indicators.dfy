/**
 * The indicator engine: EMA, SMA, VWAP, Bollinger Bands, MACD, RSI, the
 * Stochastic Oscillator and ADX/DMI, each a transform of a time-ordered price
 * series into series of the same length, aligned position by position. An
 * undefined position (pandas NaN) is `None`.
 */
module TechnicalIndicators {
  import opened Stats
  import opened Series
  import opened Frames

  // ===========================================================================
  // ema

  /** The smoothing factor pandas derives from `span`: `2 / (span + 1)`. */
  function Alpha(span: int): (a: real)
    requires span >= 1
    ensures 0.0 < a <= 1.0
  {
    2.0 / (span as real + 1.0)
  }

  /** `prices.ewm(span=span, adjust=False).mean()`. */
  function Ema(prices: seq<real>, span: int := 5): (r: seq<real>)
    requires span >= 1
    ensures |r| == |prices|
  {
    Ewm(prices, Alpha(span))
  }

  /**
   * EMA has no warm-up: one value per price, seeded with the first price, then
   * `ema[i] = a * prices[i] + (1 - a) * ema[i - 1]` with `a = 2 / (span + 1)`.
   */
  lemma EmaRecurrence(prices: seq<real>, span: int, i: int)
    requires span >= 1 && 0 <= i < |prices|
    ensures |Ema(prices, span)| == |prices|
    ensures i == 0 ==> Ema(prices, span)[0] == prices[0]
    ensures i > 0 ==> Ema(prices, span)[i]
                      == Alpha(span) * prices[i] + (1.0 - Alpha(span)) * Ema(prices, span)[i - 1]
  {
    if i > 0 {
      EwmStep(prices, Alpha(span), i);
    }
  }

  /** EMA never leaves the range of the prices seen so far. */
  lemma EmaWithinRange(prices: seq<real>, span: int, i: int)
    requires span >= 1 && 0 <= i < |prices|
    ensures Min(prices[..i + 1]) <= Ema(prices, span)[i] <= Max(prices[..i + 1])
  {
    EwmWithinRange(prices, Alpha(span), i);
  }

  /** The worked example: span 3 gives a = 0.5, so the EMA starts 10, 10.5, 11.25. */
  lemma EmaExample()
    ensures Ema([10.0, 11.0, 12.0, 11.0, 10.0, 11.0, 12.0, 13.0, 14.0, 15.0], 3)[..3]
            == [10.0, 10.5, 11.25]
  {
    var p := [10.0, 11.0, 12.0, 11.0, 10.0, 11.0, 12.0, 13.0, 14.0, 15.0];
    assert Alpha(3) == 0.5;
    EmaRecurrence(p, 3, 0);
    EmaRecurrence(p, 3, 1);
    EmaRecurrence(p, 3, 2);
  }

  // ===========================================================================
  // sma

  /** `prices.rolling(window=window).mean()`. */
  function Sma(prices: seq<real>, window: int := 50): (r: seq<Option<real>>)
    requires window >= 0
    ensures |r| == |prices|
  {
    Rolling(Lift(prices), window, MeanOf)
  }

  /**
   * SMA is undefined on the first `window - 1` positions (so everywhere when the
   * window is longer than the series) and is then the mean of the trailing window.
   */
  lemma SmaAt(prices: seq<real>, window: int, i: int)
    requires window >= 1 && 0 <= i < |prices|
    ensures |Sma(prices, window)| == |prices|
    ensures i < window - 1 ==> Sma(prices, window)[i] == None
    ensures i >= window - 1 ==> Sma(prices, window)[i] == Some(Mean(prices[i + 1 - window..i + 1]))
  {
    RollingOfLifted(prices, window, MeanOf, i);
  }

  /**
   * The incremental form of the moving average: sliding the window one step adds
   * the entering price and drops the leaving one, each weighted by `1 / window`.
   */
  lemma SmaSlide(prices: seq<real>, window: int, i: int)
    requires window >= 1 && window - 1 <= i && i + 1 < |prices|
    ensures Sma(prices, window)[i].Some? && Sma(prices, window)[i + 1].Some?
    ensures Sma(prices, window)[i + 1].value
            == Sma(prices, window)[i].value + (prices[i + 1] - prices[i + 1 - window]) / window as real
  {
    SmaAt(prices, window, i);
    SmaAt(prices, window, i + 1);
    var before, after := prices[i + 1 - window..i + 1], prices[i + 2 - window..i + 2];
    assert before[1..] == after[..window - 1];
    MeanSlide(before, after);
  }

  /** `sma([10, 11, 12, 11, 10], window=3)` is `[NaN, NaN, 11, 34/3, 11]`. */
  lemma SmaExample()
    ensures Sma([10.0, 11.0, 12.0, 11.0, 10.0], 3)
            == [None, None, Some(11.0), Some(34.0 / 3.0), Some(11.0)]
  {
    var p := [10.0, 11.0, 12.0, 11.0, 10.0];
    SmaAt(p, 3, 0);
    SmaAt(p, 3, 1);
    SmaAt(p, 3, 2);
    SmaAt(p, 3, 3);
    SmaAt(p, 3, 4);
    MeanOfThree(p[0..3], 10.0, 11.0, 12.0);
    MeanOfThree(p[1..4], 11.0, 12.0, 11.0);
    MeanOfThree(p[2..5], 12.0, 11.0, 10.0);
  }

  lemma MeanOfThree(t: seq<real>, a: real, b: real, c: real)
    requires t == [a, b, c]
    ensures Mean(t) == (a + b + c) / 3.0
  {
    var ab, a' := t[..2], t[..2][..1];
    assert a' == [a] && a'[..0] == [];
    assert Sum(a') == a;
    assert Sum(ab) == a + b;
  }

  // ===========================================================================
  // vwap

  /** Cumulative price-times-volume over cumulative volume. */
  function VwapOf(close: seq<real>, volume: seq<real>): (r: seq<Option<real>>)
    requires |close| == |volume|
    ensures |r| == |close|
  {
    var pv, cv := CumSum(Products(close, volume)), CumSum(volume);
    seq(|close|, i requires 0 <= i < |close| => Div(Some(pv[i]), Some(cv[i])))
  }

  /** `vwap(prices)`: indexing the frame by "Close" then "Volume" raises KeyError if either is absent. */
  function Vwap(prices: Frame): (r: Result<seq<Option<real>>>)
    requires prices.Aligned()
    ensures r.Ok? <==> "Close" in prices.columns && "Volume" in prices.columns
    ensures r.Ok? ==> |r.value| == prices.length
    ensures "Close" !in prices.columns ==> r == Err(KeyError("Close"))
    ensures "Close" in prices.columns && "Volume" !in prices.columns ==> r == Err(KeyError("Volume"))
  {
    if "Close" !in prices.columns then Err(KeyError("Close"))
    else if "Volume" !in prices.columns then Err(KeyError("Volume"))
    else Ok(VwapOf(prices.columns["Close"], prices.columns["Volume"]))
  }

  /** VWAP at `i` is undefined exactly when the volume traded so far sums to zero. */
  lemma VwapAt(close: seq<real>, volume: seq<real>, i: int)
    requires |close| == |volume| && 0 <= i < |close|
    ensures VwapOf(close, volume)[i].None? <==> Sum(volume[..i + 1]) == 0.0
    ensures VwapOf(close, volume)[i].Some? ==>
      VwapOf(close, volume)[i].value
      == Sum(Products(close[..i + 1], volume[..i + 1])) / Sum(volume[..i + 1])
  {
    var p := Products(close, volume);
    var p' := Products(close[..i + 1], volume[..i + 1]);
    assert forall j :: 0 <= j <= i ==> p[..i + 1][j] == p'[j];
    assert p[..i + 1] == p';
  }

  /** With non-negative volumes, VWAP is undefined exactly on a leading run of zero-volume bars. */
  lemma VwapUndefinedIffNoVolume(close: seq<real>, volume: seq<real>, i: int)
    requires |close| == |volume| && 0 <= i < |close|
    requires forall j :: 0 <= j < |volume| ==> 0.0 <= volume[j]
    ensures VwapOf(close, volume)[i].None? <==> forall j :: 0 <= j <= i ==> volume[j] == 0.0
  {
    VwapAt(close, volume, i);
    var seen := volume[..i + 1];
    SumZeroIff(seen);
    assert forall j :: 0 <= j <= i ==> seen[j] == volume[j];
  }

  /**
   * With non-negative volumes, wherever VWAP is defined it lies between the lowest
   * and the highest close seen so far.
   */
  lemma VwapWithinRange(close: seq<real>, volume: seq<real>, i: int)
    requires |close| == |volume| && 0 <= i < |close|
    requires forall j :: 0 <= j < |volume| ==> 0.0 <= volume[j]
    ensures VwapOf(close, volume)[i].Some? ==>
      Min(close[..i + 1]) <= VwapOf(close, volume)[i].value <= Max(close[..i + 1])
  {
    VwapAt(close, volume, i);
    var c, v := close[..i + 1], volume[..i + 1];
    if Sum(v) != 0.0 {
      WeightedMeanWithinRange(c, v);
    }
  }

  // ===========================================================================
  // bollinger_bands

  datatype Bands = Bands(middle: seq<Option<real>>, upper: seq<Option<real>>, lower: seq<Option<real>>)

  /**
   * `bollinger_bands(prices, window, num_std)`: the rolling mean and the rolling
   * sample standard deviation over the same window, and the mean plus and minus
   * `num_std` deviations. The square root is the parameter `sqrt`.
   */
  function BollingerBands(prices: seq<real>, sqrt: real -> real, window: int := 20, numStd: int := 2): (b: Bands)
    requires window >= 0
    ensures |b.middle| == |b.upper| == |b.lower| == |prices|
  {
    var n := |prices|;
    var smaLine := Rolling(Lift(prices), window, MeanOf);
    var std := Rolling(Lift(prices), window, StdOf(sqrt));
    var width := seq(n, i requires 0 <= i < n => Mul(Some(numStd as real), std[i]));
    Bands(smaLine,
          seq(n, i requires 0 <= i < n => Add(smaLine[i], width[i])),
          seq(n, i requires 0 <= i < n => Sub(smaLine[i], width[i])))
  }

  /** The middle band is exactly the simple moving average over the same window. */
  lemma BollingerMiddleIsSma(prices: seq<real>, window: int, numStd: int, sqrt: real -> real)
    requires window >= 1
    ensures BollingerBands(prices, sqrt, window, numStd).middle == Sma(prices, window)
  {
  }

  /**
   * The bands are defined from position `window - 1` on, but only for windows of at
   * least two prices: the sample deviation of a single price is NaN.
   */
  lemma BollingerDefined(prices: seq<real>, window: int, numStd: int, sqrt: real -> real, i: int)
    requires window >= 1 && 0 <= i < |prices|
    ensures var b := BollingerBands(prices, sqrt, window, numStd);
      |b.middle| == |b.upper| == |b.lower| == |prices|
      && (b.middle[i].Some? <==> window - 1 <= i)
      && (b.upper[i].Some? <==> 2 <= window && window - 1 <= i)
      && (b.lower[i].Some? <==> 2 <= window && window - 1 <= i)
  {
    RollingOfLifted(prices, window, MeanOf, i);
    RollingOfLifted(prices, window, StdOf(sqrt), i);
  }

  /** Both bands sit `num_std` sample deviations of the window away from the middle band. */
  lemma BollingerSymmetric(prices: seq<real>, window: int, numStd: int, sqrt: real -> real, i: int)
    requires 2 <= window && window - 1 <= i < |prices|
    ensures var b := BollingerBands(prices, sqrt, window, numStd);
      var dev := sqrt(SampleVariance(prices[i + 1 - window..i + 1]));
      b.middle[i].Some? && b.upper[i].Some? && b.lower[i].Some?
      && b.upper[i].value - b.middle[i].value == numStd as real * dev
      && b.middle[i].value - b.lower[i].value == numStd as real * dev
  {
    BollingerLines(prices, sqrt, window, numStd, i);
    SmaAt(prices, window, i);
    RollingStdAt(prices, window, sqrt, i);
    var b := BollingerBands(prices, sqrt, window, numStd);
    BandOffsets(b.middle[i], sqrt(SampleVariance(prices[i + 1 - window..i + 1])), numStd as real);
  }

  /** At each position, the bands are the SMA plus and minus `num_std` times the rolling deviation. */
  lemma BollingerLines(prices: seq<real>, sqrt: real -> real, window: int, numStd: int, i: int)
    requires window >= 0 && 0 <= i < |prices|
    ensures var b, std := BollingerBands(prices, sqrt, window, numStd), Rolling(Lift(prices), window, StdOf(sqrt));
      b.middle[i] == Sma(prices, window)[i]
      && b.upper[i] == Add(b.middle[i], Mul(Some(numStd as real), std[i]))
      && b.lower[i] == Sub(b.middle[i], Mul(Some(numStd as real), std[i]))
  {
  }

  /** `mid + k * dev` and `mid - k * dev` sit `k * dev` above and below `mid`. */
  lemma BandOffsets(mid: Option<real>, dev: real, k: real)
    requires mid.Some?
    ensures Add(mid, Mul(Some(k), Some(dev))).Some? && Sub(mid, Mul(Some(k), Some(dev))).Some?
    ensures Add(mid, Mul(Some(k), Some(dev))).value - mid.value == k * dev
    ensures mid.value - Sub(mid, Mul(Some(k), Some(dev))).value == k * dev
  {
  }

  /** With a true square root and a non-negative multiplier, `lower <= middle <= upper`. */
  lemma BollingerOrdered(prices: seq<real>, window: int, numStd: int, sqrt: real -> real, i: int)
    requires IsSqrt(sqrt) && 0 <= numStd
    requires window >= 1 && 0 <= i < |prices|
    ensures var b := BollingerBands(prices, sqrt, window, numStd);
      b.upper[i].Some? ==> b.lower[i].value <= b.middle[i].value <= b.upper[i].value
  {
    if 2 <= window && window - 1 <= i {
      var t := prices[i + 1 - window..i + 1];
      BollingerSymmetric(prices, window, numStd, sqrt, i);
      VarianceNonNegative(t);
      MulNonNegative(numStd as real, sqrt(SampleVariance(t)));
    } else {
      BollingerDefined(prices, window, numStd, sqrt, i);
    }
  }

  /** Over a window of equal prices, the three bands coincide at that price. */
  lemma BollingerFlat(prices: seq<real>, window: int, numStd: int, sqrt: real -> real, i: int)
    requires IsSqrt(sqrt)
    requires 2 <= window && window - 1 <= i < |prices|
    requires Flat(prices[i + 1 - window..i + 1])
    ensures var b := BollingerBands(prices, sqrt, window, numStd);
      b.upper[i] == b.middle[i] == b.lower[i] == Some(prices[i])
  {
    var t := prices[i + 1 - window..i + 1];
    BollingerSymmetric(prices, window, numStd, sqrt, i);
    SmaAt(prices, window, i);
    MeanOfFlat(t);
    assert t[0] == t[window - 1] == prices[i];
    VarianceOfFlat(t);
  }

  // ===========================================================================
  // macd

  datatype MacdLines = MacdLines(macd: seq<real>, signal: seq<real>, histogram: seq<real>)

  /** `macd(prices, fast, slow, signal)`: three EMAs, all defined from the first position. */
  function Macd(prices: seq<real>, fast: int := 12, slow: int := 26, signal: int := 9): (m: MacdLines)
    requires fast >= 1 && slow >= 1 && signal >= 1
    ensures |m.macd| == |m.signal| == |m.histogram| == |prices|
  {
    var n := |prices|;
    var emaFast := Ewm(prices, Alpha(fast));
    var emaSlow := Ewm(prices, Alpha(slow));
    var macdLine := seq(n, i requires 0 <= i < n => emaFast[i] - emaSlow[i]);
    var signalLine := Ewm(macdLine, Alpha(signal));
    MacdLines(macdLine, signalLine, seq(n, i requires 0 <= i < n => macdLine[i] - signalLine[i]))
  }

  /**
   * The MACD line is the fast EMA minus the slow EMA, the signal line is the EMA of
   * the MACD line, and the histogram is their difference, at every position.
   */
  lemma MacdIdentities(prices: seq<real>, fast: int, slow: int, signal: int, i: int)
    requires fast >= 1 && slow >= 1 && signal >= 1 && 0 <= i < |prices|
    ensures var m := Macd(prices, fast, slow, signal);
      |m.macd| == |m.signal| == |m.histogram| == |prices|
      && m.macd[i] == Ema(prices, fast)[i] - Ema(prices, slow)[i]
      && m.signal == Ema(m.macd, signal)
      && m.histogram[i] == m.macd[i] - m.signal[i]
  {
  }

  /** All three lines start at zero: both EMAs are seeded with the first price. */
  lemma MacdStartsAtZero(prices: seq<real>, fast: int, slow: int, signal: int)
    requires fast >= 1 && slow >= 1 && signal >= 1 && |prices| > 0
    ensures var m := Macd(prices, fast, slow, signal);
      m.macd[0] == 0.0 && m.signal[0] == 0.0 && m.histogram[0] == 0.0
  {
  }

  /** On flat prices every line of the MACD is identically zero. */
  lemma MacdOfFlat(prices: seq<real>, fast: int, slow: int, signal: int, i: int)
    requires fast >= 1 && slow >= 1 && signal >= 1 && 0 <= i < |prices|
    requires Flat(prices)
    ensures var m := Macd(prices, fast, slow, signal);
      m.macd[i] == 0.0 && m.signal[i] == 0.0 && m.histogram[i] == 0.0
  {
    var m := Macd(prices, fast, slow, signal);
    EwmOfFlat(prices, Alpha(fast));
    EwmOfFlat(prices, Alpha(slow));
    assert forall j :: 0 <= j < |prices| ==> m.macd[j] == 0.0;
    assert Flat(m.macd);
    EwmOfFlat(m.macd, Alpha(signal));
  }

  // ===========================================================================
  // rsi

  /** `delta.clip(lower=0)`: the rises, with falls counted as zero. */
  function Gains(prices: seq<real>): (r: seq<Option<real>>)
    ensures |r| == |prices|
  {
    ClipLower(Diff(prices))
  }

  /** `-delta.clip(upper=0)`: the falls as positive amounts, with rises counted as zero. */
  function Losses(prices: seq<real>): (r: seq<Option<real>>)
    ensures |r| == |prices|
  {
    var falls := ClipUpper(Diff(prices));
    seq(|prices|, i requires 0 <= i < |prices| => Neg(falls[i]))
  }

  /**
   * Gain and loss are NaN at the first position and never negative after it; at
   * most one of them is non-zero, and the gain minus the loss is the price change.
   */
  lemma GainLossSigns(prices: seq<real>, i: int)
    requires 0 <= i < |prices|
    ensures |Gains(prices)| == |Losses(prices)| == |prices|
    ensures i == 0 ==> Gains(prices)[i].None? && Losses(prices)[i].None?
    ensures i > 0 ==> Gains(prices)[i].Some? && Losses(prices)[i].Some?
    ensures i > 0 ==> 0.0 <= Gains(prices)[i].value && 0.0 <= Losses(prices)[i].value
    ensures i > 0 ==> Gains(prices)[i].value == 0.0 || Losses(prices)[i].value == 0.0
    ensures i > 0 ==> Gains(prices)[i].value - Losses(prices)[i].value == prices[i] - prices[i - 1]
  {
    ClipSigns(Diff(prices), i);
  }

  /**
   * `100 - 100 / (1 + rs)` with `rs = avg_gain / avg_loss`, as floating point
   * evaluates it: a zero loss makes `rs` infinite and the RSI 100, unless the gain
   * is zero too (0/0 is NaN); a zero denominator `1 + rs` gives an infinity (`None`).
   */
  function RsiPoint(avgGain: Option<real>, avgLoss: Option<real>): (r: Option<real>)
    ensures r.Some? ==> avgGain.Some? && avgLoss.Some?
    ensures avgGain.Some? && avgLoss.Some? && avgLoss.value == 0.0 ==> (r.Some? <==> avgGain.value != 0.0)
  {
    if avgGain.None? || avgLoss.None? then None
    else if avgLoss.value == 0.0 then (if avgGain.value == 0.0 then None else Some(100.0))
    else if 1.0 + avgGain.value / avgLoss.value == 0.0 then None
    else Some(100.0 - 100.0 / (1.0 + avgGain.value / avgLoss.value))
  }

  /** `rsi(prices, period)`: the point formula over the rolling mean gain and loss. */
  function Rsi(prices: seq<real>, period: int := 14): (r: seq<Option<real>>)
    requires period >= 0
    ensures |r| == |prices|
  {
    var avgGain := Rolling(Gains(prices), period, MeanOf);
    var avgLoss := Rolling(Losses(prices), period, MeanOf);
    seq(|prices|, i requires 0 <= i < |prices| => RsiPoint(avgGain[i], avgLoss[i]))
  }

  /** Every window ending before position `period` contains the NaN of `delta[0]`. */
  lemma RsiWarmup(prices: seq<real>, period: int, i: int)
    requires period >= 1 && 0 <= i < |prices| && i < period
    ensures Rsi(prices, period)[i] == None
  {
    GainLossSigns(prices, 0);
    assert !Full(Gains(prices), i, period);
  }

  /** The RSI of a defined pair of averages, both non-negative, is in [0, 100]. */
  lemma RsiPointWithinRange(g: real, l: real)
    requires 0.0 <= g && 0.0 <= l
    ensures RsiPoint(Some(g), Some(l)).Some? ==>
      0.0 <= RsiPoint(Some(g), Some(l)).value <= 100.0
  {
    if l != 0.0 {
      RsiPointClosedForm(g, l);
      RatioBetween(g, g + l);
    }
  }

  /** With a positive loss, `100 - 100 / (1 + g / l)` is the share of gains `100 g / (g + l)`. */
  lemma RsiPointClosedForm(g: real, l: real)
    requires 0.0 <= g && 0.0 < l
    ensures RsiPoint(Some(g), Some(l)) == Some(GainShare(g, l))
  {
    var rs, d := g / l, g + l;
    assert rs * l == g;
    assert 0.0 <= rs;
    assert (1.0 + rs) * l == d;
    var a := 100.0 / (1.0 + rs);
    assert a * (1.0 + rs) == 100.0;
    assert a * d == 100.0 * l by {
      assert a * d == a * (1.0 + rs) * l;
    }
    assert (100.0 - a) * d == 100.0 * g;
    QuotientUnique(100.0 * g, d, 100.0 - a);
  }

  /** The gains' share of all movement, as a percentage: `100 g / (g + l)`. */
  function GainShare(g: real, l: real): real
    requires g + l != 0.0
  {
    100.0 * g / (g + l)
  }

  /** The one number that times a non-zero `y` gives `x` is `x / y`. */
  lemma QuotientUnique(x: real, y: real, q: real)
    requires y != 0.0 && q * y == x
    ensures q == x / y
  {
  }

  /** `0 <= x / y <= 1` when `0 <= x <= y` and `y > 0`, scaled by 100. */
  lemma RatioBetween(x: real, y: real)
    requires 0.0 <= x <= y && 0.0 < y
    ensures 0.0 <= 100.0 * x / y <= 100.0
  {
    var q := x / y;
    assert q * y == x;
    assert (100.0 * q) * y == 100.0 * x;
    QuotientUnique(100.0 * x, y, 100.0 * q);
  }

  /**
   * The RSI at a point past the warm-up, in terms of the gains and losses of the
   * window: `100 G / (G + L)` with `G` and `L` their sums, undefined when both are 0.
   */
  lemma RsiClosedForm(prices: seq<real>, period: int, i: int)
    requires period >= 1 && period <= i < |prices|
    ensures var g, l := Values(Window(Gains(prices), i, period)), Values(Window(Losses(prices), i, period));
      0.0 <= Sum(g) && 0.0 <= Sum(l)
      && (Rsi(prices, period)[i].None? <==> Sum(g) + Sum(l) == 0.0)
      && (Rsi(prices, period)[i].Some? ==>
            Rsi(prices, period)[i].value == GainShare(Sum(g), Sum(l)))
  {
    var gains, losses := Gains(prices), Losses(prices);
    WindowMoves(prices, period, i);
    var g, l := Values(Window(gains, i, period)), Values(Window(losses, i, period));
    SumNonNegative(g);
    SumNonNegative(l);
    RollingMeanAt(gains, period, i);
    RollingMeanAt(losses, period, i);
    MeanOfSums(Sum(g), Sum(l), period);
  }

  /** The RSI point over two means of equally long windows, in terms of the window sums. */
  lemma MeanOfSums(sg: real, sl: real, n: int)
    requires 0.0 <= sg && 0.0 <= sl && n >= 1
    ensures var p := RsiPoint(Some(sg / n as real), Some(sl / n as real));
      (p.None? <==> sg + sl == 0.0)
      && (p.Some? ==> p.value == GainShare(sg, sl))
  {
    var g, l := sg / n as real, sl / n as real;
    assert g * n as real == sg && l * n as real == sl;
    assert 0.0 <= g && 0.0 <= l;
    if l == 0.0 {
      assert sl == 0.0;
      if g != 0.0 {
        assert sg != 0.0;
        assert 100.0 * sg / (sg + sl) == 100.0;
      }
    } else {
      RsiPointClosedForm(g, l);
      assert 0.0 < sl;
      assert (g + l) * n as real == sg + sl;
      assert 100.0 * g / (g + l) == 100.0 * sg / (sg + sl);
    }
  }

  /** Wherever RSI is defined it lies in [0, 100]. */
  lemma RsiWithinRange(prices: seq<real>, period: int, i: int)
    requires period >= 1 && 0 <= i < |prices|
    ensures Rsi(prices, period)[i].Some? ==> 0.0 <= Rsi(prices, period)[i].value <= 100.0
  {
    if i < period {
      RsiWarmup(prices, period, i);
    } else {
      RsiClosedForm(prices, period, i);
      var g, l := Values(Window(Gains(prices), i, period)), Values(Window(Losses(prices), i, period));
      if Sum(g) + Sum(l) != 0.0 {
        RatioBetween(Sum(g), Sum(g) + Sum(l));
      }
    }
  }

  /**
   * With a zero average loss, RSI saturates at 100 when the average gain is not
   * zero, and is undefined (0/0) when it is.
   */
  lemma RsiZeroLoss(avgGain: real)
    ensures avgGain != 0.0 ==> RsiPoint(Some(avgGain), Some(0.0)) == Some(100.0)
    ensures avgGain == 0.0 ==> RsiPoint(Some(avgGain), Some(0.0)) == None
  {
  }

  /**
   * Past the warm-up, RSI saturates at 100 exactly when the window holds no loss
   * but some gain.
   */
  lemma RsiSaturatesIff(prices: seq<real>, period: int, i: int)
    requires period >= 1 && period <= i < |prices|
    ensures var g, l := Values(Window(Gains(prices), i, period)), Values(Window(Losses(prices), i, period));
      Rsi(prices, period)[i] == Some(100.0) <==> Sum(l) == 0.0 && Sum(g) != 0.0
  {
    RsiClosedForm(prices, period, i);
    var g, l := Values(Window(Gains(prices), i, period)), Values(Window(Losses(prices), i, period));
    if Sum(g) + Sum(l) != 0.0 {
      SaturatedShare(Sum(g), Sum(l));
    }
  }

  /** `100 g / (g + l)` is 100 exactly when `l` is zero (and then `g` is not). */
  lemma SaturatedShare(g: real, l: real)
    requires g + l != 0.0
    ensures GainShare(g, l) == 100.0 <==> l == 0.0 && g != 0.0
  {
    var r := 100.0 * g / (g + l);
    assert r * (g + l) == 100.0 * g;
    if r == 100.0 {
      assert 100.0 * (g + l) == 100.0 * g;
    }
    if l == 0.0 {
      QuotientUnique(100.0 * g, g + l, 100.0);
    }
  }

  /**
   * Past the warm-up, RSI is undefined (0/0) exactly when the price did not move at
   * any step of the window.
   */
  lemma RsiUndefinedIffNoMove(prices: seq<real>, period: int, i: int)
    requires period >= 1 && period <= i < |prices|
    ensures Rsi(prices, period)[i].None? <==>
      forall j :: i + 1 - period <= j <= i ==> prices[j] == prices[j - 1]
  {
    RsiClosedForm(prices, period, i);
    var g, l := Values(Window(Gains(prices), i, period)), Values(Window(Losses(prices), i, period));
    WindowMoves(prices, period, i);
    SumZeroIff(g);
    SumZeroIff(l);
    var noMove := forall j :: i + 1 - period <= j <= i ==> prices[j] == prices[j - 1];
    if noMove {
      forall k | 0 <= k < period ensures g[k] == 0.0 && l[k] == 0.0 {
        assert prices[i + 1 - period + k] == prices[i - period + k];
      }
    }
    if Sum(g) + Sum(l) == 0.0 {
      forall j | i + 1 - period <= j <= i ensures prices[j] == prices[j - 1] {
        assert g[j - (i + 1 - period)] == 0.0;
      }
    }
  }

  /**
   * Within the window ending at `i` (past the warm-up), each gain and loss is
   * defined and non-negative, and both are zero exactly where the price did not move.
   */
  lemma WindowMoves(prices: seq<real>, period: int, i: int)
    requires period >= 1 && period <= i < |prices|
    ensures Full(Gains(prices), i, period) && Full(Losses(prices), i, period)
    ensures var g, l := Values(Window(Gains(prices), i, period)), Values(Window(Losses(prices), i, period));
      |g| == |l| == period
      && forall k :: 0 <= k < period ==>
           0.0 <= g[k] && 0.0 <= l[k]
           && (g[k] == 0.0 && l[k] == 0.0 <==> prices[i + 1 - period + k] == prices[i - period + k])
  {
    var gains, losses := Gains(prices), Losses(prices);
    forall j | 0 < j < |prices|
      ensures gains[j].Some? && losses[j].Some? && 0.0 <= gains[j].value && 0.0 <= losses[j].value
      ensures gains[j].value - losses[j].value == prices[j] - prices[j - 1]
      ensures gains[j].value == 0.0 || losses[j].value == 0.0
    {
      GainLossSigns(prices, j);
    }
    var g, l := Values(Window(gains, i, period)), Values(Window(losses, i, period));
    forall k | 0 <= k < period
      ensures g[k] == gains[i + 1 - period + k].value && l[k] == losses[i + 1 - period + k].value
    {
    }
  }

  // ===========================================================================
  // stochastic

  datatype StochasticLines = StochasticLines(percentK: seq<Option<real>>, percentD: seq<Option<real>>)

  /**
   * %K places the close within the range of the last `kWindow` bars,
   * `100 * (close - low_min) / (high_max - low_min)`; %D is its `dWindow` rolling mean.
   */
  function StochasticOf(high: seq<real>, low: seq<real>, close: seq<real>, kWindow: int := 14, dWindow: int := 3)
    : (r: StochasticLines)
    requires |high| == |low| == |close| && kWindow >= 0 && dWindow >= 0
    ensures |r.percentK| == |r.percentD| == |close|
  {
    var percentK := PercentK(high, low, close, kWindow);
    StochasticLines(percentK, Rolling(percentK, dWindow, MeanOf))
  }

  /** `100 * (close - low_min) / (high_max - low_min)` over `kWindow` bars. */
  function PercentK(high: seq<real>, low: seq<real>, close: seq<real>, kWindow: int): (k: seq<Option<real>>)
    requires |high| == |low| == |close| && kWindow >= 0
    ensures |k| == |close|
  {
    var n := |close|;
    var lowMin := Rolling(Lift(low), kWindow, MinOf);
    var highMax := Rolling(Lift(high), kWindow, MaxOf);
    seq(n, i requires 0 <= i < n => Position(close[i], lowMin[i], highMax[i]))
  }

  /** `100 * (close - low_min) / (high_max - low_min)` at one bar, with NaN and x/0 as `None`. */
  function Position(close: real, lowMin: Option<real>, highMax: Option<real>): (r: Option<real>)
    ensures r.Some? <==> lowMin.Some? && highMax.Some? && highMax.value != lowMin.value
  {
    Div(Mul(Some(100.0), Sub(Some(close), lowMin)), Sub(highMax, lowMin))
  }

  /** `100 (c - lo) / (hi - lo)`: where `c` sits between `lo` and `hi`, as a percentage. */
  function PercentOfRange(c: real, lo: real, hi: real): real
    requires hi != lo
  {
    100.0 * (c - lo) / (hi - lo)
  }

  /** With both extremes defined, the position is undefined exactly when they coincide. */
  lemma PositionOfDefined(close: real, lo: real, hi: real)
    ensures Position(close, Some(lo), Some(hi)) == if hi == lo then None else Some(PercentOfRange(close, lo, hi))
  {
  }

  /**
   * `stochastic(prices_ohlc, k_window, d_window)`: fails on the first of Open, High,
   * Low and Close that the frame lacks, in that order.
   */
  function Stochastic(prices: Frame, kWindow: int := 14, dWindow: int := 3): (r: Result<StochasticLines>)
    requires prices.Aligned() && kWindow >= 0 && dWindow >= 0
    ensures r.Ok? <==> forall k :: 0 <= k < |Ohlc| ==> Ohlc[k] in prices.columns
    ensures r.Err? ==> r.error.MissingColumn? && r.error.name !in prices.columns
    ensures r.Err? ==> exists k :: (0 <= k < |Ohlc| && Ohlc[k] == r.error.name
                                    && forall j :: 0 <= j < k ==> Ohlc[j] in prices.columns)
    ensures r.Ok? ==> |r.value.percentK| == |r.value.percentD| == prices.length
  {
    var missing := FirstMissing(prices, Ohlc);
    if missing.Some? then Err(MissingColumn(missing.value))
    else
      assert Ohlc[1] in prices.columns && Ohlc[2] in prices.columns && Ohlc[3] in prices.columns;
      Ok(StochasticOf(prices.columns["High"], prices.columns["Low"], prices.columns["Close"], kWindow, dWindow))
  }

  /**
   * %K is undefined during the first `kWindow - 1` bars and wherever the window's
   * highest high equals its lowest low; elsewhere it is the close's position in that range.
   */
  lemma PercentKAt(high: seq<real>, low: seq<real>, close: seq<real>, kWindow: int, dWindow: int, i: int)
    requires |high| == |low| == |close| && kWindow >= 1 && dWindow >= 0 && 0 <= i < |close|
    ensures var k := StochasticOf(high, low, close, kWindow, dWindow).percentK;
      (i + 1 < kWindow ==> k[i].None?)
      && (kWindow <= i + 1 ==>
            var highMax, lowMin := Max(high[i + 1 - kWindow..i + 1]), Min(low[i + 1 - kWindow..i + 1]);
            (k[i].None? <==> highMax == lowMin)
            && (k[i].Some? ==> k[i].value == PercentOfRange(close[i], lowMin, highMax)))
  {
    PercentKOf(high, low, close, kWindow, i);
  }

  lemma PercentKOf(high: seq<real>, low: seq<real>, close: seq<real>, kWindow: int, i: int)
    requires |high| == |low| == |close| && kWindow >= 1 && 0 <= i < |close|
    ensures var k := PercentK(high, low, close, kWindow);
      (i + 1 < kWindow ==> k[i].None?)
      && (kWindow <= i + 1 ==>
            var highMax, lowMin := Max(high[i + 1 - kWindow..i + 1]), Min(low[i + 1 - kWindow..i + 1]);
            (k[i].None? <==> highMax == lowMin)
            && (k[i].Some? ==> k[i].value == PercentOfRange(close[i], lowMin, highMax)))
  {
    var k := PercentK(high, low, close, kWindow);
    RollingMinAt(low, kWindow, i);
    RollingMaxAt(high, kWindow, i);
    if kWindow <= i + 1 {
      var highMax, lowMin := Max(high[i + 1 - kWindow..i + 1]), Min(low[i + 1 - kWindow..i + 1]);
      assert k[i] == Position(close[i], Some(lowMin), Some(highMax));
      PositionOfDefined(close[i], lowMin, highMax);
    }
  }

  /** The close at `i` lies between the lowest low and the highest high of the `kWindow` bars ending at `i`. */
  predicate CloseWithinRange(high: seq<real>, low: seq<real>, close: seq<real>, kWindow: int, i: int)
    requires |high| == |low| == |close| && 1 <= kWindow <= i + 1 <= |close|
  {
    Min(low[i + 1 - kWindow..i + 1]) <= close[i] <= Max(high[i + 1 - kWindow..i + 1])
  }

  /** A close within its own bar lies within the range of every window that ends at that bar. */
  lemma CloseWithinBar(high: seq<real>, low: seq<real>, close: seq<real>, kWindow: int, i: int)
    requires |high| == |low| == |close| && 1 <= kWindow <= i + 1 <= |close|
    requires low[i] <= close[i] <= high[i]
    ensures CloseWithinRange(high, low, close, kWindow, i)
  {
    var hw, lw := high[i + 1 - kWindow..i + 1], low[i + 1 - kWindow..i + 1];
    assert hw[kWindow - 1] == high[i] && lw[kWindow - 1] == low[i];
  }

  /**
   * A defined %K is in [0, 100] when the close lies within the window's
   * `[low_min, high_max]`; and when that range is not empty, only then.
   */
  lemma PercentKWithinRange(high: seq<real>, low: seq<real>, close: seq<real>, kWindow: int, dWindow: int, i: int)
    requires |high| == |low| == |close| && kWindow >= 1 && dWindow >= 0 && kWindow - 1 <= i < |close|
    ensures var k := StochasticOf(high, low, close, kWindow, dWindow).percentK;
      k[i].Some? && CloseWithinRange(high, low, close, kWindow, i) ==> 0.0 <= k[i].value <= 100.0
    ensures var k := StochasticOf(high, low, close, kWindow, dWindow).percentK;
      var highMax, lowMin := Max(high[i + 1 - kWindow..i + 1]), Min(low[i + 1 - kWindow..i + 1]);
      k[i].Some? && lowMin < highMax && 0.0 <= k[i].value <= 100.0 ==> CloseWithinRange(high, low, close, kWindow, i)
  {
    PercentKAt(high, low, close, kWindow, dWindow, i);
    var highMax, lowMin := Max(high[i + 1 - kWindow..i + 1]), Min(low[i + 1 - kWindow..i + 1]);
    if highMax != lowMin {
      PositionWithinRange(close[i], lowMin, highMax);
    }
  }

  /** The position `100 (c - lo) / (hi - lo)` is in [0, 100] when `lo <= c <= hi`, and for `lo < hi` only then. */
  lemma PositionWithinRange(c: real, lo: real, hi: real)
    requires lo != hi
    ensures lo <= c <= hi ==> 0.0 <= PercentOfRange(c, lo, hi) <= 100.0
    ensures lo < hi && 0.0 <= PercentOfRange(c, lo, hi) <= 100.0 ==> lo <= c <= hi
  {
    if lo <= c <= hi {
      RatioBetween(c - lo, hi - lo);
    }
    if lo < hi {
      RatioBetweenConverse(c - lo, hi - lo);
    }
  }

  /** If `0 <= 100 x / y <= 100` with `y > 0`, then `0 <= x <= y`. */
  lemma RatioBetweenConverse(x: real, y: real)
    requires 0.0 < y
    ensures 0.0 <= 100.0 * x / y <= 100.0 ==> 0.0 <= x <= y
  {
    var r := 100.0 * x / y;
    assert r * y == 100.0 * x;
    if 0.0 <= r <= 100.0 {
      MulNonNegative(r, y);
      MulNonNegative(100.0 - r, y);
    }
  }

  /**
   * %D is the rolling mean of %K: defined exactly when the `dWindow` values of %K
   * ending at `i` all are, and then their mean; so an undefined %K leaves every %D
   * window that contains it undefined.
   */
  lemma PercentDAt(high: seq<real>, low: seq<real>, close: seq<real>, kWindow: int, dWindow: int, i: int)
    requires |high| == |low| == |close| && kWindow >= 1 && dWindow >= 1 && 0 <= i < |close|
    ensures var st := StochasticOf(high, low, close, kWindow, dWindow);
      (st.percentD[i].Some? <==> Full(st.percentK, i, dWindow))
      && (st.percentD[i].Some? ==> st.percentD[i].value == Mean(Values(Window(st.percentK, i, dWindow))))
    ensures var st := StochasticOf(high, low, close, kWindow, dWindow);
      forall j :: i + 1 - dWindow <= j <= i && 0 <= j && st.percentK[j].None? ==> st.percentD[i].None?
  {
    RollingMeanAt(StochasticOf(high, low, close, kWindow, dWindow).percentK, dWindow, i);
  }

  /**
   * When every close lies within the range of its %K window (for instance within
   * its own bar, `CloseWithinBar`), %D is in [0, 100] wherever defined.
   */
  lemma PercentDWithinRange(high: seq<real>, low: seq<real>, close: seq<real>, kWindow: int, dWindow: int, i: int)
    requires |high| == |low| == |close| && kWindow >= 1 && dWindow >= 1 && 0 <= i < |close|
    requires forall j :: kWindow - 1 <= j < |close| ==> CloseWithinRange(high, low, close, kWindow, j)
    ensures var d := StochasticOf(high, low, close, kWindow, dWindow).percentD;
      d[i].Some? ==> 0.0 <= d[i].value <= 100.0
  {
    var k := StochasticOf(high, low, close, kWindow, dWindow).percentK;
    forall j | 0 <= j < |k| && k[j].Some? ensures 0.0 <= k[j].value <= 100.0 {
      PercentKAt(high, low, close, kWindow, dWindow, j);
      PercentKWithinRange(high, low, close, kWindow, dWindow, j);
    }
    RollingMeanWithin(k, dWindow, 0.0, 100.0, i);
  }

  // ===========================================================================
  // adx

  /**
   * The true range: the largest of `high - low`, `|high - previous close|` and
   * `|low - previous close|`. The shifted close is NaN at the first bar, and
   * `max(axis=1)` skips NaN, so the first true range is `high - low` alone.
   */
  function TrueRange(high: seq<real>, low: seq<real>, close: seq<real>): (tr: seq<real>)
    requires |high| == |low| == |close|
    ensures |tr| == |close|
  {
    seq(|close|, i requires 0 <= i < |close| =>
      if i == 0 then Max([high[0] - low[0]])
      else Max([high[i] - low[i], Magnitude(high[i] - close[i - 1]), Magnitude(low[i] - close[i - 1])]))
  }

  /** The true range is the largest of its candidates, so at least the bar's own range. */
  lemma TrueRangeBounds(high: seq<real>, low: seq<real>, close: seq<real>, i: int)
    requires |high| == |low| == |close| && 0 <= i < |close|
    ensures var tr := TrueRange(high, low, close);
      high[i] - low[i] <= tr[i]
      && (i == 0 ==> tr[i] == high[i] - low[i])
      && (i > 0 ==> Magnitude(high[i] - close[i - 1]) <= tr[i] && Magnitude(low[i] - close[i - 1]) <= tr[i]
                    && 0.0 <= tr[i]
                    && (tr[i] == high[i] - low[i] || tr[i] == Magnitude(high[i] - close[i - 1])
                        || tr[i] == Magnitude(low[i] - close[i - 1])))
  {
    if i > 0 {
      var t := [high[i] - low[i], Magnitude(high[i] - close[i - 1]), Magnitude(low[i] - close[i - 1])];
      assert t[0] <= Max(t) && t[1] <= Max(t) && t[2] <= Max(t);
    }
  }

  /** The three lines `adx` returns. */
  datatype DmiLines = DmiLines(adx: seq<Option<real>>, plusDi: seq<Option<real>>, minusDi: seq<Option<real>>)

  /**
   * `dx = |plus_di - minus_di| / (plus_di + minus_di) * 100`, undefined where either
   * line is or where their sum is zero.
   */
  function Dx(plusDi: seq<Option<real>>, minusDi: seq<Option<real>>): (dx: seq<Option<real>>)
    requires |plusDi| == |minusDi|
    ensures |dx| == |plusDi|
  {
    seq(|plusDi|, i requires 0 <= i < |plusDi| =>
      Mul(Div(Abs(Sub(plusDi[i], minusDi[i])), Add(plusDi[i], minusDi[i])), Some(100.0)))
  }

  /**
   * Everything `adx` computes once the directional movements are clipped: the
   * average true range, both directional indicators over it, and the rolling mean of `dx`.
   */
  function DmiOf(high: seq<real>, low: seq<real>, close: seq<real>,
                 plusDm: seq<Option<real>>, minusDm: seq<Option<real>>, period: int): (r: DmiLines)
    requires |high| == |low| == |close| == |plusDm| == |minusDm| && period >= 0
    ensures |r.adx| == |r.plusDi| == |r.minusDi| == |close|
  {
    var n := |close|;
    var atr := Rolling(Lift(TrueRange(high, low, close)), period, MeanOf);
    var plusMean, minusMean := Rolling(plusDm, period, MeanOf), Rolling(minusDm, period, MeanOf);
    var plusDi := seq(n, i requires 0 <= i < n => Mul(Some(100.0), Div(plusMean[i], atr[i])));
    var minusDi := seq(n, i requires 0 <= i < n => Abs(Mul(Some(100.0), Div(minusMean[i], atr[i]))));
    DmiLines(Rolling(Dx(plusDi, minusDi), period, MeanOf), plusDi, minusDi)
  }

  /**
   * The directional movements `high.diff()` and `low.diff()`, with the negative
   * rises of the high and the positive rises of the low set to zero.
   */
  function Dmi(high: seq<real>, low: seq<real>, close: seq<real>, period: int := 14): (r: DmiLines)
    requires |high| == |low| == |close| && period >= 0
    ensures |r.adx| == |r.plusDi| == |r.minusDi| == |close|
  {
    DmiOf(high, low, close, ClipLower(Diff(high)), ClipUpper(Diff(low)), period)
  }

  /** `adx(prices_ohlc, period)`, including its checks for the four price columns. */
  function AdxOf(prices: Frame, period: int := 14): (r: Result<DmiLines>)
    requires prices.Aligned() && period >= 0
    ensures r.Ok? <==> forall k :: 0 <= k < |Ohlc| ==> Ohlc[k] in prices.columns
    ensures r.Err? ==> r.error.MissingColumn? && r.error.name !in prices.columns
    ensures r.Err? ==> exists k :: (0 <= k < |Ohlc| && Ohlc[k] == r.error.name
                                    && forall j :: 0 <= j < k ==> Ohlc[j] in prices.columns)
    ensures r.Ok? ==> |r.value.adx| == prices.length
  {
    var missing := FirstMissing(prices, Ohlc);
    if missing.Some? then Err(MissingColumn(missing.value))
    else
      assert Ohlc[1] in prices.columns && Ohlc[2] in prices.columns && Ohlc[3] in prices.columns;
      Ok(Dmi(prices.columns["High"], prices.columns["Low"], prices.columns["Close"], period))
  }

  /** `plus_dm[plus_dm < 0] = 0`: zeroes the negative entries in place, NaN untouched. */
  method ZeroNegatives(a: array<Option<real>>)
    modifies a
    ensures a[..] == ClipLower(old(a[..]))
  {
    ghost var before := a[..];
    for i := 0 to a.Length
      invariant a[..i] == ClipLower(before)[..i]
      invariant a[i..] == before[i..]
    {
      assert a[i] == before[i];
      if a[i].Some? && a[i].value < 0.0 {
        a[i] := Some(0.0);
      }
      assert a[..i + 1] == ClipLower(before)[..i + 1] by {
        assert a[..i + 1] == a[..i] + [a[i]];
      }
    }
  }

  /** `minus_dm[minus_dm > 0] = 0`: zeroes the positive entries in place, NaN untouched. */
  method ZeroPositives(a: array<Option<real>>)
    modifies a
    ensures a[..] == ClipUpper(old(a[..]))
  {
    ghost var before := a[..];
    for i := 0 to a.Length
      invariant a[..i] == ClipUpper(before)[..i]
      invariant a[i..] == before[i..]
    {
      assert a[i] == before[i];
      if a[i].Some? && a[i].value > 0.0 {
        a[i] := Some(0.0);
      }
      assert a[..i + 1] == ClipUpper(before)[..i + 1] by {
        assert a[..i + 1] == a[..i] + [a[i]];
      }
    }
  }

  /**
   * `adx` as the source runs it: check the columns, take the differences, clip
   * them in place, then compute the three lines.
   */
  method Adx(prices: Frame, period: int := 14) returns (r: Result<DmiLines>)
    requires prices.Aligned() && period >= 0
    ensures r == AdxOf(prices, period)
  {
    var missing := FirstMissing(prices, Ohlc);
    if missing.Some? {
      return Err(MissingColumn(missing.value));
    }
    assert Ohlc[1] in prices.columns && Ohlc[2] in prices.columns && Ohlc[3] in prices.columns;
    var high, low, close := prices.columns["High"], prices.columns["Low"], prices.columns["Close"];
    var highDiff, lowDiff := Diff(high), Diff(low);
    var plusDm := new Option<real>[|highDiff|](i requires 0 <= i < |highDiff| => highDiff[i]);
    var minusDm := new Option<real>[|lowDiff|](i requires 0 <= i < |lowDiff| => lowDiff[i]);
    assert plusDm[..] == highDiff;
    assert minusDm[..] == lowDiff;
    ZeroNegatives(plusDm);
    ZeroPositives(minusDm);
    r := Ok(DmiOf(high, low, close, plusDm[..], minusDm[..], period));
  }

  /**
   * The clipped directional movements are NaN at the first bar; after it `plus_dm`
   * is the high's rise or zero, never negative, and `minus_dm` the low's fall or
   * zero, never positive.
   */
  lemma DmSigns(high: seq<real>, low: seq<real>, i: int)
    requires |high| == |low| && 0 <= i < |high|
    ensures var plusDm, minusDm := ClipLower(Diff(high)), ClipUpper(Diff(low));
      (plusDm[i].Some? <==> i > 0) && (minusDm[i].Some? <==> i > 0)
      && (i > 0 ==> 0.0 <= plusDm[i].value && minusDm[i].value <= 0.0
                    && plusDm[i].value == (if high[i] - high[i - 1] < 0.0 then 0.0 else high[i] - high[i - 1])
                    && minusDm[i].value == (if low[i] - low[i - 1] > 0.0 then 0.0 else low[i] - low[i - 1]))
  {
  }

  /** Both directional indicators are undefined on the first `period` bars. */
  lemma DiWarmup(high: seq<real>, low: seq<real>, close: seq<real>, period: int, i: int)
    requires |high| == |low| == |close| && period >= 1 && 0 <= i < |close| && i < period
    ensures Dmi(high, low, close, period).plusDi[i].None?
    ensures Dmi(high, low, close, period).minusDi[i].None?
  {
    DmSigns(high, low, 0);
    assert !Full(ClipLower(Diff(high)), i, period);
    assert !Full(ClipUpper(Diff(low)), i, period);
  }

  /**
   * Past the warm-up, +DI and -DI are defined exactly when the average true range
   * is non-zero, and are then 100 times the average movement over it (the fall of
   * the low counted as a magnitude).
   */
  lemma DiAt(high: seq<real>, low: seq<real>, close: seq<real>, period: int, i: int)
    requires |high| == |low| == |close| && period >= 1 && period <= i < |close|
    ensures var d, atr := Dmi(high, low, close, period), Mean(TrueRange(high, low, close)[i + 1 - period..i + 1]);
      var plusDm, minusDm := ClipLower(Diff(high)), ClipUpper(Diff(low));
      Full(plusDm, i, period) && Full(minusDm, i, period)
      && (d.plusDi[i].Some? <==> atr != 0.0) && (d.minusDi[i].Some? <==> atr != 0.0)
      && (atr != 0.0 ==> d.plusDi[i].value == 100.0 * (Mean(Values(Window(plusDm, i, period))) / atr))
      && (atr != 0.0 ==> d.minusDi[i].value == Magnitude(100.0 * (Mean(Values(Window(minusDm, i, period))) / atr)))
  {
    var plusDm, minusDm := ClipLower(Diff(high)), ClipUpper(Diff(low));
    forall j | 0 < j < |close| ensures plusDm[j].Some? && minusDm[j].Some? {
      DmSigns(high, low, j);
    }
    assert Full(plusDm, i, period) && Full(minusDm, i, period);
    RollingOfLifted(TrueRange(high, low, close), period, MeanOf, i);
    RollingMeanAt(plusDm, period, i);
    RollingMeanAt(minusDm, period, i);
  }

  /** `minus_di` is never negative, thanks to its `abs`. */
  lemma MinusDiNonNegative(high: seq<real>, low: seq<real>, close: seq<real>, period: int, i: int)
    requires |high| == |low| == |close| && period >= 1 && 0 <= i < |close|
    ensures var d := Dmi(high, low, close, period);
      d.minusDi[i].Some? ==> 0.0 <= d.minusDi[i].value
  {
  }

  /** When no bar's low exceeds its high, no true range is negative. */
  lemma TrueRangeNonNegative(high: seq<real>, low: seq<real>, close: seq<real>)
    requires |high| == |low| == |close|
    requires forall j :: 0 <= j < |close| ==> low[j] <= high[j]
    ensures forall j :: 0 <= j < |close| ==> 0.0 <= TrueRange(high, low, close)[j]
  {
    forall j | 0 <= j < |close| ensures 0.0 <= TrueRange(high, low, close)[j] {
      TrueRangeBounds(high, low, close, j);
    }
  }

  /**
   * `plus_di` is never negative, on any bars: it is defined only from bar `period`
   * on, where the true-range window starts at bar 1 or later, and every true range
   * after bar 0 is a maximum that includes an absolute value. Only the first true
   * range, `high[0] - low[0]`, can be negative, and it never reaches a defined +DI.
   */
  lemma PlusDiNonNegative(high: seq<real>, low: seq<real>, close: seq<real>, period: int, i: int)
    requires |high| == |low| == |close| && period >= 1 && 0 <= i < |close|
    ensures var d := Dmi(high, low, close, period);
      d.plusDi[i].Some? ==> 0.0 <= d.plusDi[i].value
  {
    if i < period {
      DiWarmup(high, low, close, period, i);
    } else {
      var window := TrueRange(high, low, close)[i + 1 - period..i + 1];
      var atr := Mean(window);
      assert 0.0 <= atr by {
        forall k | 0 <= k < period ensures 0.0 <= window[k] {
          TrueRangeBounds(high, low, close, i + 1 - period + k);
        }
        MeanAtLeast(window, 0.0);
      }
      var plusDm := ClipLower(Diff(high));
      DiAt(high, low, close, period, i);
      if atr != 0.0 {
        var m := Mean(Values(Window(plusDm, i, period)));
        assert 0.0 <= m by {
          forall j | 0 <= j < |plusDm| && plusDm[j].Some? ensures 0.0 <= plusDm[j].value {
            DmSigns(high, low, j);
          }
          RollingMeanNonNegative(plusDm, period, i);
          RollingMeanAt(plusDm, period, i);
        }
        ScaledRatioNonNegative(m, atr);
      }
    }
  }

  lemma ScaledRatioNonNegative(x: real, y: real)
    requires 0.0 <= x && 0.0 < y
    ensures 0.0 <= 100.0 * (x / y)
  {
    var q := x / y;
    assert q * y == x;
  }

  /**
   * With non-negative +DI and -DI, `dx` is in [0, 100] wherever defined, and it is
   * undefined exactly where either line is or both are zero.
   */
  lemma DxWithinRange(plusDi: seq<Option<real>>, minusDi: seq<Option<real>>, i: int)
    requires |plusDi| == |minusDi| && 0 <= i < |plusDi|
    requires plusDi[i].Some? ==> 0.0 <= plusDi[i].value
    requires minusDi[i].Some? ==> 0.0 <= minusDi[i].value
    ensures Dx(plusDi, minusDi)[i].None? <==>
      plusDi[i].None? || minusDi[i].None? || plusDi[i].value + minusDi[i].value == 0.0
    ensures Dx(plusDi, minusDi)[i].Some? ==> 0.0 <= Dx(plusDi, minusDi)[i].value <= 100.0
  {
    if plusDi[i].Some? && minusDi[i].Some? && plusDi[i].value + minusDi[i].value != 0.0 {
      var p, m := plusDi[i].value, minusDi[i].value;
      var q := Magnitude(p - m) / (p + m);
      RatioBetween(Magnitude(p - m), p + m);
      assert 100.0 * Magnitude(p - m) / (p + m) == q * 100.0;
    }
  }

  /** The ADX line is undefined on the first `2 * period - 1` bars. */
  lemma AdxWarmup(high: seq<real>, low: seq<real>, close: seq<real>, period: int, i: int)
    requires |high| == |low| == |close| && period >= 1 && 0 <= i < |close| && i < 2 * period - 1
    ensures Dmi(high, low, close, period).adx[i].None?
  {
    var d := Dmi(high, low, close, period);
    var dx := Dx(d.plusDi, d.minusDi);
    if period <= i + 1 {
      var j := i + 1 - period;
      DiWarmup(high, low, close, period, j);
      assert dx[j].None?;
      assert !Full(dx, i, period);
    }
  }

  /** The ADX line is in [0, 100] wherever defined, as is every `dx` it averages. */
  lemma AdxWithinRange(high: seq<real>, low: seq<real>, close: seq<real>, period: int, i: int)
    requires |high| == |low| == |close| && period >= 1 && 0 <= i < |close|
    ensures var a := Dmi(high, low, close, period).adx;
      a[i].Some? ==> 0.0 <= a[i].value <= 100.0
  {
    var d := Dmi(high, low, close, period);
    var dx := Dx(d.plusDi, d.minusDi);
    forall j | 0 <= j < |dx| && dx[j].Some? ensures 0.0 <= dx[j].value <= 100.0 {
      PlusDiNonNegative(high, low, close, period, j);
      MinusDiNonNegative(high, low, close, period, j);
      DxWithinRange(d.plusDi, d.minusDi, j);
    }
    RollingMeanWithin(dx, period, 0.0, 100.0, i);
  }

  // ===========================================================================
  // a window of zero

  /** A window of 0 is accepted by `rolling`; SMA, both Bollinger bands and RSI are then NaN throughout. */
  lemma EmptyWindowUndefined(prices: seq<real>, sqrt: real -> real, numStd: int, i: int)
    requires 0 <= i < |prices|
    ensures Sma(prices, 0)[i] == None && Rsi(prices, 0)[i] == None
    ensures var b := BollingerBands(prices, sqrt, 0, numStd);
      b.middle[i] == None && b.upper[i] == None && b.lower[i] == None
  {
    assert !Full(Lift(prices), i, 0);
    assert !Full(Gains(prices), i, 0);
  }

  /**
   * With `k_window` 0 both stochastic lines are NaN throughout, and with `d_window`
   * 0 so is %D; with `period` 0 all three `adx` lines are.
   */
  lemma EmptyRangeWindowUndefined(high: seq<real>, low: seq<real>, close: seq<real>, kWindow: int, dWindow: int, i: int)
    requires |high| == |low| == |close| && 0 <= i < |close| && kWindow >= 0 && dWindow >= 0
    ensures kWindow == 0 ==> StochasticOf(high, low, close, kWindow, dWindow).percentK[i] == None
    ensures kWindow == 0 || dWindow == 0 ==> StochasticOf(high, low, close, kWindow, dWindow).percentD[i] == None
    ensures var d := Dmi(high, low, close, 0);
      d.adx[i] == None && d.plusDi[i] == None && d.minusDi[i] == None
  {
    if kWindow == 0 {
      assert !Full(Lift(low), i, 0);
    }
    assert !Full(ClipLower(Diff(high)), i, 0);
    assert !Full(ClipUpper(Diff(low)), i, 0);
  }
}
