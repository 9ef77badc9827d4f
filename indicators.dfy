/**
 * The older indicator file: `ema`, `sma`, `bollinger_bands` and `macd` written
 * again from the pandas primitives. Each agrees with its namesake in
 * TechnicalIndicators on every argument, so every property proved there holds
 * here too.
 */
module Indicators {
  import opened Stats
  import opened Series
  import TI = TechnicalIndicators

  function Ema(prices: seq<real>, span: int := 5): (r: seq<real>)
    requires span >= 1
    ensures |r| == |prices|
  {
    Ewm(prices, 2.0 / (span as real + 1.0))
  }

  function Sma(prices: seq<real>, window: int := 50): (r: seq<Option<real>>)
    requires window >= 0
    ensures |r| == |prices|
  {
    Rolling(Lift(prices), window, MeanOf)
  }

  function BollingerBands(prices: seq<real>, sqrt: real -> real, window: int := 20, numStd: int := 2): (b: TI.Bands)
    requires window >= 0
    ensures |b.middle| == |b.upper| == |b.lower| == |prices|
  {
    var n := |prices|;
    var smaLine := Rolling(Lift(prices), window, MeanOf);
    var std := Rolling(Lift(prices), window, StdOf(sqrt));
    var upper := seq(n, i requires 0 <= i < n => Add(smaLine[i], Mul(Some(numStd as real), std[i])));
    var lower := seq(n, i requires 0 <= i < n => Sub(smaLine[i], Mul(Some(numStd as real), std[i])));
    TI.Bands(smaLine, upper, lower)
  }

  function Macd(prices: seq<real>, fast: int := 12, slow: int := 26, signal: int := 9): (m: TI.MacdLines)
    requires fast >= 1 && slow >= 1 && signal >= 1
    ensures |m.macd| == |m.signal| == |m.histogram| == |prices|
  {
    var n := |prices|;
    var emaFast := Ewm(prices, 2.0 / (fast as real + 1.0));
    var emaSlow := Ewm(prices, 2.0 / (slow as real + 1.0));
    var macdLine := seq(n, i requires 0 <= i < n => emaFast[i] - emaSlow[i]);
    var signalLine := Ewm(macdLine, 2.0 / (signal as real + 1.0));
    TI.MacdLines(macdLine, signalLine, seq(n, i requires 0 <= i < n => macdLine[i] - signalLine[i]))
  }

  /** The older `ema` returns what the current one does. */
  lemma EmaAgrees(prices: seq<real>, span: int)
    requires span >= 1
    ensures Ema(prices, span) == TI.Ema(prices, span)
  {
  }

  /** The older `sma` returns what the current one does. */
  lemma SmaAgrees(prices: seq<real>, window: int)
    requires window >= 0
    ensures Sma(prices, window) == TI.Sma(prices, window)
  {
  }

  /** The older `bollinger_bands` returns the same three lines as the current one. */
  lemma BollingerBandsAgree(prices: seq<real>, window: int, numStd: int, sqrt: real -> real)
    requires window >= 0
    ensures BollingerBands(prices, sqrt, window, numStd) == TI.BollingerBands(prices, sqrt, window, numStd)
  {
  }

  /** The older `macd` returns the same three lines as the current one. */
  lemma MacdAgrees(prices: seq<real>, fast: int, slow: int, signal: int)
    requires fast >= 1 && slow >= 1 && signal >= 1
    ensures Macd(prices, fast, slow, signal) == TI.Macd(prices, fast, slow, signal)
  {
  }

  /** Seeded with the first price, then `a * price + (1 - a) * previous`, `a = 2 / (span + 1)`. */
  lemma EmaRecurrence(prices: seq<real>, span: int, i: int)
    requires span >= 1 && 0 <= i < |prices|
    ensures |Ema(prices, span)| == |prices|
    ensures i == 0 ==> Ema(prices, span)[0] == prices[0]
    ensures i > 0 ==> Ema(prices, span)[i]
                      == TI.Alpha(span) * prices[i] + (1.0 - TI.Alpha(span)) * Ema(prices, span)[i - 1]
  {
    EmaAgrees(prices, span);
    TI.EmaRecurrence(prices, span, i);
  }

  /** Undefined on the first `window - 1` positions, then the mean of the trailing window. */
  lemma SmaAt(prices: seq<real>, window: int, i: int)
    requires window >= 1 && 0 <= i < |prices|
    ensures |Sma(prices, window)| == |prices|
    ensures i < window - 1 ==> Sma(prices, window)[i] == None
    ensures i >= window - 1 ==> Sma(prices, window)[i] == Some(Mean(prices[i + 1 - window..i + 1]))
  {
    SmaAgrees(prices, window);
    TI.SmaAt(prices, window, i);
  }

  /** The bands sit symmetrically about the middle band, and coincide on a flat window. */
  lemma BollingerSymmetricAndFlat(prices: seq<real>, window: int, numStd: int, sqrt: real -> real, i: int)
    requires IsSqrt(sqrt)
    requires 2 <= window && window - 1 <= i < |prices|
    ensures var b := BollingerBands(prices, sqrt, window, numStd);
      b.upper[i].Some? && b.middle[i].Some? && b.lower[i].Some?
      && b.upper[i].value - b.middle[i].value == b.middle[i].value - b.lower[i].value
    ensures Flat(prices[i + 1 - window..i + 1]) ==>
      var b := BollingerBands(prices, sqrt, window, numStd);
      b.upper[i] == b.middle[i] == b.lower[i] == Some(prices[i])
  {
    BollingerBandsAgree(prices, window, numStd, sqrt);
    TI.BollingerSymmetric(prices, window, numStd, sqrt, i);
    if Flat(prices[i + 1 - window..i + 1]) {
      TI.BollingerFlat(prices, window, numStd, sqrt, i);
    }
  }

  /** The histogram is the MACD line minus the signal line, and all three start at zero. */
  lemma MacdHistogram(prices: seq<real>, fast: int, slow: int, signal: int, i: int)
    requires fast >= 1 && slow >= 1 && signal >= 1 && 0 <= i < |prices|
    ensures var m := Macd(prices, fast, slow, signal);
      m.histogram[i] == m.macd[i] - m.signal[i]
      && m.macd[0] == 0.0 && m.signal[0] == 0.0 && m.histogram[0] == 0.0
  {
    MacdAgrees(prices, fast, slow, signal);
    TI.MacdIdentities(prices, fast, slow, signal, i);
    TI.MacdStartsAtZero(prices, fast, slow, signal);
  }
}
