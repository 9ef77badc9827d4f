# Technical indicators of TechnicalAnalysisOfStock, in Dafny

This project models the indicator engine of TechnicalAnalysisOfStock, a small Python
library. Each indicator is a pandas transform that turns a time-ordered price series,
or an OHLCV table, into series of the same length. The position in each output
series matches the position in the input. The model covers all eight indicators:

- EMA, SMA and VWAP;
- Bollinger Bands and MACD;
- RSI, the Stochastic Oscillator and ADX/DMI.

It also covers the older copy of EMA, SMA, Bollinger Bands and MACD, and proves that
copy agrees with the current one.

The model uses these representations:

- Prices are exact `real`s. Rounding is not modelled.
- A pandas NaN is `None` in an `Option<real>`. Infinity is also `None`; see "Left out".
- `rolling(window)` is the function `Series.Rolling`. Like pandas' default
  `min_periods=window`, it yields a value only when the whole trailing window exists
  and holds no NaN.
- `ewm(span, adjust=False).mean()` is the recurrence `Series.Ewm`.
- A DataFrame is a `Frames.Frame`: a map from column names to columns of equal length.
  The column checks of `stochastic` and `adx` become a `MissingColumn` error. A missing
  column that `vwap` indexes becomes a `KeyError`.
- The square root inside the rolling standard deviation is a parameter `sqrt`. Lemmas
  that need a true root require `IsSqrt(sqrt)`.
- In `adx`, the masked assignments `plus_dm[plus_dm < 0] = 0` and
  `minus_dm[minus_dm > 0] = 0` change the series in place. They are modelled as
  methods on an array: `ZeroNegatives` and `ZeroPositives`. The method `Adx` runs the
  function's steps in the source's order and is proved to return exactly `AdxOf`.

The project has five modules:

- `Stats`: sums, means, minimum, maximum and sample variance, with their bounds.
- `Series`: the pandas primitives.
- `Frames`: the OHLCV table and its errors.
- `TechnicalIndicators`: `utils/technical_indicators.py`.
- `Indicators`: `utils/indicators.py`.

Some behaviour of the code is easy to misread, and the model states it as the code has it:

- **Stochastic %K.** A defined %K is in [0, 100] when the close lies within its
  window's `[low_min, high_max]`, and when `low_min < high_max`, only then
  (`PercentKWithinRange`). So when `low_min < high_max`, a close outside
  `[low_min, high_max]` puts %K outside [0, 100]. A close within its own bar is always
  within that range (`CloseWithinBar`); a close above its own bar's high need not be
  outside it, since another bar of the window may reach higher.
- **minus_dm.** `minus_dm` keeps the sign of the low's diff: after the masked
  assignment it is never positive. `abs` is applied only when `minus_di` is computed
  (`DmSigns`, `DiAt`).
- **Empty windows.** pandas accepts a window of 0 and returns NaN at every position.
  `Series.Rolling` does the same, so `sma`, `bollinger_bands`, `rsi`, `stochastic` and
  `adx` with a window or period of 0 are undefined everywhere
  (`EmptyWindowUndefined`, `EmptyRangeWindowUndefined`).
- **Default arguments.** The source's defaults are Dafny default parameters:
  `span=5` for `ema`; `window=50` for `sma`; `window=20, num_std=2` for
  `bollinger_bands`; `fast=12, slow=26, signal=9` for `macd`; `period=14` for `rsi`
  and `adx`; `k_window=14, d_window=3` for `stochastic`.

## Model

| member | source | states |
|---|---|---|
| Stats.Magnitude | src/TechnicalAnalysisOfStock/utils/technical_indicators.py:211-212 | `abs(x)` is non-negative and equals `x` or `-x` |
| Stats.Min | src/TechnicalAnalysisOfStock/utils/technical_indicators.py:161 | the rolling `min` of a window is below every element and equal to one of them |
| Stats.Max | src/TechnicalAnalysisOfStock/utils/technical_indicators.py:162 | the rolling `max` of a window is above every element and equal to one of them |
| Stats.SumZeroIff | src/TechnicalAnalysisOfStock/utils/technical_indicators.py:39-41 | a sum of non-negative terms (volumes, gains, losses) is zero exactly when every term is zero |
| Stats.SumSlide | src/TechnicalAnalysisOfStock/utils/technical_indicators.py:35 | sliding a window one step drops its first element from the sum and adds the new last one |
| Stats.MeanSlide | src/TechnicalAnalysisOfStock/utils/technical_indicators.py:35 | sliding a window one step moves its mean by the entering minus the leaving element, over the window length |
| Stats.MeanWithinRange | src/TechnicalAnalysisOfStock/utils/technical_indicators.py:35 | the mean of a window lies between its minimum and maximum |
| Stats.MeanOfFlat | src/TechnicalAnalysisOfStock/utils/technical_indicators.py:60 | the mean of a window of equal values is that value |
| Stats.VarianceNonNegative | src/TechnicalAnalysisOfStock/utils/technical_indicators.py:61 | the sample variance (ddof=1) is never negative |
| Stats.VarianceOfFlat | src/TechnicalAnalysisOfStock/utils/technical_indicators.py:61 | the sample variance of a flat window is zero |
| Stats.WeightedMeanWithinRange | src/TechnicalAnalysisOfStock/utils/technical_indicators.py:39-41 | with non-negative weights whose total is not zero, the weighted mean lies between the smallest and the largest value averaged |
| Series.Lift | src/TechnicalAnalysisOfStock/utils/technical_indicators.py:35 | a price series without NaN: every position is defined and holds its price |
| Series.Diff | src/TechnicalAnalysisOfStock/utils/technical_indicators.py:120 | `diff()` keeps the length and is NaN at the first position; `GainLossSigns` and `DmSigns` give the change after it |
| Series.ClipLower | src/TechnicalAnalysisOfStock/utils/technical_indicators.py:121 | `clip(lower=0)` keeps the length; `ClipSigns` gives each value |
| Series.ClipUpper | src/TechnicalAnalysisOfStock/utils/technical_indicators.py:122 | `clip(upper=0)` keeps the length; `ClipSigns` gives each value |
| Series.ClipSigns | src/TechnicalAnalysisOfStock/utils/technical_indicators.py:120-122 | `clip(lower=0)` is never negative and `clip(upper=0)` never positive; each defined value is the input or 0 (`if v < 0 then 0 else v`, and the mirror for `clip(upper=0)`); both keep NaN where the input has it, and they add back up to the input |
| Series.CumSum | src/TechnicalAnalysisOfStock/utils/technical_indicators.py:39-41 | `cumsum()` keeps the length; `CumSumStep` gives the running total |
| Series.CumSumStep | src/TechnicalAnalysisOfStock/utils/technical_indicators.py:39-41 | `cumsum` adds each value to the running total of the values before it |
| Series.Reduce | src/TechnicalAnalysisOfStock/utils/technical_indicators.py:35 | the reduction of one full window (mean, min, max, or the ddof=1 std) is defined except for the std of a single value |
| Series.Rolling | src/TechnicalAnalysisOfStock/utils/technical_indicators.py:35 | a rolling value exists only where the whole trailing window exists and holds no NaN |
| Series.RollingOfLifted | src/TechnicalAnalysisOfStock/utils/technical_indicators.py:35 | over a series without NaN, a rolling value is undefined before the first full window and is then the reduction of the trailing window |
| Series.RollingMinAt | src/TechnicalAnalysisOfStock/utils/technical_indicators.py:161 | over a series without NaN, the rolling `min` is the minimum of each full window and NaN before the first |
| Series.RollingMaxAt | src/TechnicalAnalysisOfStock/utils/technical_indicators.py:162 | over a series without NaN, the rolling `max` is the maximum of each full window and NaN before the first |
| Series.RollingStdAt | src/TechnicalAnalysisOfStock/utils/technical_indicators.py:61 | over a series without NaN, the rolling `std` of a full window of at least two values is the root of its sample variance |
| Series.RollingMeanAt | src/TechnicalAnalysisOfStock/utils/technical_indicators.py:124-125 | a rolling mean is defined exactly when its window is full, and is then the mean of the window |
| Series.RollingMeanWithin | src/TechnicalAnalysisOfStock/utils/technical_indicators.py:165 | a rolling mean stays within any bounds that every defined input respects |
| Series.RollingMeanNonNegative | src/TechnicalAnalysisOfStock/utils/technical_indicators.py:124-125 | a rolling mean of values that are never negative is never negative |
| Series.RollingEmptyWindow | src/TechnicalAnalysisOfStock/utils/technical_indicators.py:35 | a rolling window of 0 yields NaN at every position |
| Series.Ewm | src/TechnicalAnalysisOfStock/utils/technical_indicators.py:25 | `ewm(adjust=False)` keeps the length and is seeded with the first value |
| Series.EwmPrefix | src/TechnicalAnalysisOfStock/utils/technical_indicators.py:25 | the EWM of a prefix is the prefix of the EWM, so no value depends on later prices |
| Series.EwmStep | src/TechnicalAnalysisOfStock/utils/technical_indicators.py:25 | each EWM value is `alpha * value + (1 - alpha) * previous EWM` |
| Series.EwmWithinRange | src/TechnicalAnalysisOfStock/utils/technical_indicators.py:25 | with `0 < alpha <= 1`, the EWM never leaves the range of the values seen so far |
| Series.EwmWithinBounds | src/TechnicalAnalysisOfStock/utils/technical_indicators.py:25 | with `0 < alpha <= 1`, any bounds that hold every value up to `i` also hold the EWM at `i` |
| Series.EwmOfFlatAt | src/TechnicalAnalysisOfStock/utils/technical_indicators.py:25 | for any `alpha`, each EWM value of a constant series is that constant |
| Series.EwmOfFlat | src/TechnicalAnalysisOfStock/utils/technical_indicators.py:25 | the EWM of a constant series is that series |
| Frames.FirstMissing | src/TechnicalAnalysisOfStock/utils/technical_indicators.py:148-159 | the asserts report the first absent column in the order checked; none is reported exactly when all are present |
| TechnicalIndicators.Alpha | src/TechnicalAnalysisOfStock/utils/technical_indicators.py:25 | `2 / (span + 1)` lies in (0, 1] for every span of at least 1 |
| TechnicalIndicators.Ema | src/TechnicalAnalysisOfStock/utils/technical_indicators.py:15-25 | `ewm(span, adjust=False).mean()` keeps the input's length; `EmaRecurrence` and `EmaWithinRange` give its values |
| TechnicalIndicators.EmaRecurrence | src/TechnicalAnalysisOfStock/utils/technical_indicators.py:15-25 | EMA has the input's length, equals the first price at 0, then follows `a * price + (1 - a) * previous` with `a = 2 / (span + 1)` |
| TechnicalIndicators.EmaWithinRange | src/TechnicalAnalysisOfStock/utils/technical_indicators.py:25 | EMA lies between the lowest and the highest price so far |
| TechnicalIndicators.EmaExample | src/TechnicalAnalysisOfStock/utils/technical_indicators.py:25 | with span 3, the prices 10, 11, 12 give the EMA 10, 10.5, 11.25 |
| TechnicalIndicators.Sma | src/TechnicalAnalysisOfStock/utils/technical_indicators.py:28-35 | `rolling(window).mean()` keeps the input's length; `SmaAt` gives its values |
| TechnicalIndicators.SmaAt | src/TechnicalAnalysisOfStock/utils/technical_indicators.py:28-35 | SMA has the input's length, is undefined before position `window - 1` (everywhere when the window is longer than the series), and is then the mean of the trailing window |
| TechnicalIndicators.SmaSlide | src/TechnicalAnalysisOfStock/utils/technical_indicators.py:35 | moving one step adds the entering price and drops the leaving one, each divided by `window` |
| TechnicalIndicators.SmaExample | src/TechnicalAnalysisOfStock/utils/technical_indicators.py:35 | `sma([10, 11, 12, 11, 10], 3)` is `[NaN, NaN, 11, 34/3, 11]` |
| TechnicalIndicators.VwapOf | src/TechnicalAnalysisOfStock/utils/technical_indicators.py:39-41 | the cumulative close times volume over the cumulative volume, one value per row; `VwapAt` gives each value |
| TechnicalIndicators.Vwap | src/TechnicalAnalysisOfStock/utils/technical_indicators.py:38-42 | succeeds exactly when both "Close" and "Volume" exist; a missing "Close" is reported first, and a missing "Volume" alone gives `KeyError("Volume")`; the result has one value per row |
| TechnicalIndicators.VwapAt | src/TechnicalAnalysisOfStock/utils/technical_indicators.py:39-41 | VWAP at `i` is the sum of close times volume over the sum of volume up to `i`, undefined exactly when that volume sums to zero |
| TechnicalIndicators.VwapUndefinedIffNoVolume | src/TechnicalAnalysisOfStock/utils/technical_indicators.py:39-41 | with non-negative volumes, VWAP is undefined exactly where every volume so far is zero |
| TechnicalIndicators.VwapWithinRange | src/TechnicalAnalysisOfStock/utils/technical_indicators.py:39-41 | with non-negative volumes, a defined VWAP lies between the lowest and the highest close so far |
| TechnicalIndicators.BollingerBands | src/TechnicalAnalysisOfStock/utils/technical_indicators.py:45-66 | the three bands have the input's length; the lemmas below give their values |
| TechnicalIndicators.BollingerMiddleIsSma | src/TechnicalAnalysisOfStock/utils/technical_indicators.py:60 | the middle band is `sma(prices, window)` |
| TechnicalIndicators.BollingerDefined | src/TechnicalAnalysisOfStock/utils/technical_indicators.py:60-66 | all three bands have the input's length; the middle is defined from `window - 1`, and the outer bands are too, but only for windows of at least 2, since the ddof=1 deviation of one price is NaN |
| TechnicalIndicators.BollingerSymmetric | src/TechnicalAnalysisOfStock/utils/technical_indicators.py:60-66 | `upper - middle == middle - lower == num_std * sqrt(sample variance of the window)` |
| TechnicalIndicators.BollingerOrdered | src/TechnicalAnalysisOfStock/utils/technical_indicators.py:60-66 | with a true square root and `num_std >= 0`, `lower <= middle <= upper` wherever defined |
| TechnicalIndicators.BollingerFlat | src/TechnicalAnalysisOfStock/utils/technical_indicators.py:60-66 | on a flat window, the three bands all equal the price |
| TechnicalIndicators.Macd | src/TechnicalAnalysisOfStock/utils/technical_indicators.py:69-96 | the three MACD lines have the input's length; `MacdIdentities` gives their values |
| TechnicalIndicators.MacdIdentities | src/TechnicalAnalysisOfStock/utils/technical_indicators.py:90-96 | the MACD line is EMA(fast) minus EMA(slow), the signal is the EMA of the MACD line, and the histogram is MACD minus signal, all of the input's length |
| TechnicalIndicators.MacdStartsAtZero | src/TechnicalAnalysisOfStock/utils/technical_indicators.py:90-96 | all three lines are defined at 0 and equal zero there |
| TechnicalIndicators.MacdOfFlat | src/TechnicalAnalysisOfStock/utils/technical_indicators.py:90-96 | on constant prices, all three lines are zero everywhere |
| TechnicalIndicators.Gains | src/TechnicalAnalysisOfStock/utils/technical_indicators.py:121 | the gain series has the input's length; `GainLossSigns` gives its values |
| TechnicalIndicators.Losses | src/TechnicalAnalysisOfStock/utils/technical_indicators.py:122 | the loss series has the input's length |
| TechnicalIndicators.GainLossSigns | src/TechnicalAnalysisOfStock/utils/technical_indicators.py:120-122 | gain and loss are NaN at 0; after that they are non-negative, at most one is non-zero, and gain minus loss is the price change |
| TechnicalIndicators.Rsi | src/TechnicalAnalysisOfStock/utils/technical_indicators.py:120-131 | RSI has the input's length |
| TechnicalIndicators.RsiWarmup | src/TechnicalAnalysisOfStock/utils/technical_indicators.py:120-125 | RSI is undefined at every `i < period`, since `delta[0]` is NaN |
| TechnicalIndicators.RsiPoint | src/TechnicalAnalysisOfStock/utils/technical_indicators.py:127-129 | a NaN average makes the RSI NaN; with a zero average loss it is defined exactly when the average gain is not zero (the infinite `rs` case) |
| TechnicalIndicators.RsiPointWithinRange | src/TechnicalAnalysisOfStock/utils/technical_indicators.py:127-129 | from non-negative average gain and loss, the RSI is in [0, 100] wherever defined |
| TechnicalIndicators.RsiPointClosedForm | src/TechnicalAnalysisOfStock/utils/technical_indicators.py:127-129 | with a positive average loss, `100 - 100 / (1 + g / l)` equals `100 g / (g + l)` |
| TechnicalIndicators.RsiClosedForm | src/TechnicalAnalysisOfStock/utils/technical_indicators.py:120-131 | past the warm-up, RSI is `100 G / (G + L)` for the window's summed gains `G` and losses `L`, and is undefined exactly when `G + L == 0` |
| TechnicalIndicators.RsiWithinRange | src/TechnicalAnalysisOfStock/utils/technical_indicators.py:120-131 | RSI is in [0, 100] wherever defined |
| TechnicalIndicators.RsiZeroLoss | src/TechnicalAnalysisOfStock/utils/technical_indicators.py:127-129 | with a zero average loss, RSI is exactly 100 when the average gain is not zero, and undefined (0/0) when it is |
| TechnicalIndicators.RsiSaturatesIff | src/TechnicalAnalysisOfStock/utils/technical_indicators.py:120-131 | past the warm-up, RSI is exactly 100 when the window's losses sum to zero and its gains do not, and only then |
| TechnicalIndicators.SaturatedShare | src/TechnicalAnalysisOfStock/utils/technical_indicators.py:127-129 | `100 g / (g + l)` is 100 exactly when `l` is zero and `g` is not |
| TechnicalIndicators.RsiUndefinedIffNoMove | src/TechnicalAnalysisOfStock/utils/technical_indicators.py:120-131 | past the warm-up, RSI is undefined exactly when the price did not change at any step of the window |
| TechnicalIndicators.WindowMoves | src/TechnicalAnalysisOfStock/utils/technical_indicators.py:120-125 | past the warm-up, each gain and loss in the window is defined and non-negative, and both are zero exactly where the price did not move |
| TechnicalIndicators.StochasticOf | src/TechnicalAnalysisOfStock/utils/technical_indicators.py:161-167 | %K and %D have the input's length |
| TechnicalIndicators.Stochastic | src/TechnicalAnalysisOfStock/utils/technical_indicators.py:148-167 | fails exactly when one of Open, High, Low, Close is missing, naming the first missing one in that order; otherwise both lines have one value per row |
| TechnicalIndicators.PercentK | src/TechnicalAnalysisOfStock/utils/technical_indicators.py:161-164 | the %K line has the input's length; `PercentKOf` gives its values |
| TechnicalIndicators.Position | src/TechnicalAnalysisOfStock/utils/technical_indicators.py:164 | the per-bar %K formula is defined exactly when both extremes are and they differ |
| TechnicalIndicators.PercentKOf | src/TechnicalAnalysisOfStock/utils/technical_indicators.py:161-164 | the %K line alone: undefined before `k_window - 1`, then undefined exactly when `high_max == low_min`, and otherwise `100 (close - low_min) / (high_max - low_min)` |
| TechnicalIndicators.PositionOfDefined | src/TechnicalAnalysisOfStock/utils/technical_indicators.py:164 | with both extremes defined, the per-bar %K formula is undefined exactly when they coincide (x/0) |
| TechnicalIndicators.PercentKAt | src/TechnicalAnalysisOfStock/utils/technical_indicators.py:161-164 | %K is undefined before `k_window - 1`; after that it is undefined exactly when the window's highest high equals its lowest low, and is otherwise `100 (close - low_min) / (high_max - low_min)` |
| TechnicalIndicators.CloseWithinBar | src/TechnicalAnalysisOfStock/utils/technical_indicators.py:161-162 | a close within its own bar's low and high lies within the rolling `[low_min, high_max]` of every window ending at that bar |
| TechnicalIndicators.PercentKWithinRange | src/TechnicalAnalysisOfStock/utils/technical_indicators.py:161-164 | a defined %K is in [0, 100] when the close lies within the window's `[low_min, high_max]`; when `low_min < high_max`, a %K in [0, 100] means the close lies there |
| TechnicalIndicators.PositionWithinRange | src/TechnicalAnalysisOfStock/utils/technical_indicators.py:164 | `100 (c - lo) / (hi - lo)` is in [0, 100] when `lo <= c <= hi`, and for `lo < hi` only then |
| TechnicalIndicators.PercentDAt | src/TechnicalAnalysisOfStock/utils/technical_indicators.py:165 | %D is defined exactly when the `d_window` values of %K ending there are, and is then their mean; an undefined %K makes every %D window containing it undefined |
| TechnicalIndicators.PercentDWithinRange | src/TechnicalAnalysisOfStock/utils/technical_indicators.py:161-165 | when every close lies within its %K window's `[low_min, high_max]`, a defined %D is in [0, 100] |
| TechnicalIndicators.TrueRange | src/TechnicalAnalysisOfStock/utils/technical_indicators.py:210-213 | the true range has the input's length |
| TechnicalIndicators.TrueRangeBounds | src/TechnicalAnalysisOfStock/utils/technical_indicators.py:210-213 | the true range is at least `high - low`, equals it at bar 0 (the NaN shift terms are skipped), and after that is the largest of the three non-negative candidates |
| TechnicalIndicators.TrueRangeNonNegative | src/TechnicalAnalysisOfStock/utils/technical_indicators.py:210-213 | when no bar's low exceeds its high, no true range is negative |
| TechnicalIndicators.Dx | src/TechnicalAnalysisOfStock/utils/technical_indicators.py:220 | `dx` has the length of the DI lines |
| TechnicalIndicators.DmiOf | src/TechnicalAnalysisOfStock/utils/technical_indicators.py:210-223 | the ADX, +DI and -DI lines have the input's length |
| TechnicalIndicators.Dmi | src/TechnicalAnalysisOfStock/utils/technical_indicators.py:204-223 | the ADX, +DI and -DI lines computed from the clipped diffs have the input's length |
| TechnicalIndicators.AdxOf | src/TechnicalAnalysisOfStock/utils/technical_indicators.py:187-223 | fails exactly when one of Open, High, Low, Close is missing, naming the first missing one in that order; otherwise the ADX line has one value per row |
| TechnicalIndicators.ZeroNegatives | src/TechnicalAnalysisOfStock/utils/technical_indicators.py:207 | after the masked assignment, the array holds the input with negatives set to zero and NaN untouched |
| TechnicalIndicators.ZeroPositives | src/TechnicalAnalysisOfStock/utils/technical_indicators.py:208 | after the masked assignment, the array holds the input with positives set to zero and NaN untouched |
| TechnicalIndicators.Adx | src/TechnicalAnalysisOfStock/utils/technical_indicators.py:170-223 | the step-by-step computation, with the in-place clipping, returns exactly `AdxOf` |
| TechnicalIndicators.DmSigns | src/TechnicalAnalysisOfStock/utils/technical_indicators.py:204-208 | the clipped `plus_dm` and `minus_dm` are NaN at bar 0; after that `plus_dm` is `if change < 0 then 0 else change` of the high, and `minus_dm` is `if change > 0 then 0 else change` of the low |
| TechnicalIndicators.DiWarmup | src/TechnicalAnalysisOfStock/utils/technical_indicators.py:215-218 | +DI and -DI are undefined at every `i < period` |
| TechnicalIndicators.DiAt | src/TechnicalAnalysisOfStock/utils/technical_indicators.py:215-218 | past the warm-up, +DI and -DI are defined exactly when the average true range is not zero; they are then 100 times the average movement over it, and -DI is taken as a magnitude |
| TechnicalIndicators.MinusDiNonNegative | src/TechnicalAnalysisOfStock/utils/technical_indicators.py:218 | -DI is never negative, thanks to its `abs` |
| TechnicalIndicators.PlusDiNonNegative | src/TechnicalAnalysisOfStock/utils/technical_indicators.py:204-217 | +DI is never negative: the true ranges it divides by are never negative past bar 0, and bar 0 never reaches a defined +DI |
| TechnicalIndicators.DxWithinRange | src/TechnicalAnalysisOfStock/utils/technical_indicators.py:220 | with non-negative DI values, `dx` is in [0, 100], and is undefined exactly where either DI is undefined or both are zero (0/0) |
| TechnicalIndicators.AdxWarmup | src/TechnicalAnalysisOfStock/utils/technical_indicators.py:215-221 | the ADX line is undefined at every `i < 2 * period - 1` |
| TechnicalIndicators.AdxWithinRange | src/TechnicalAnalysisOfStock/utils/technical_indicators.py:215-221 | the ADX line is in [0, 100] wherever defined |
| TechnicalIndicators.EmptyWindowUndefined | src/TechnicalAnalysisOfStock/utils/technical_indicators.py:28-131 | with a window or period of 0, SMA, the three Bollinger bands and RSI are undefined at every position |
| TechnicalIndicators.EmptyRangeWindowUndefined | src/TechnicalAnalysisOfStock/utils/technical_indicators.py:161-221 | with `k_window` 0, %K and %D are undefined everywhere, with `d_window` 0 %D is; with `period` 0, ADX, +DI and -DI are undefined everywhere |
| Indicators.Ema | src/TechnicalAnalysisOfStock/utils/indicators.py:15-25 | the older `ema` keeps the input's length |
| Indicators.Sma | src/TechnicalAnalysisOfStock/utils/indicators.py:28-35 | the older `sma` keeps the input's length |
| Indicators.BollingerBands | src/TechnicalAnalysisOfStock/utils/indicators.py:38-59 | the older bands have the input's length |
| Indicators.Macd | src/TechnicalAnalysisOfStock/utils/indicators.py:62-89 | the older MACD lines have the input's length |
| Indicators.EmaAgrees | src/TechnicalAnalysisOfStock/utils/indicators.py:15-25 | the older `ema` returns what the current one returns, for every argument |
| Indicators.SmaAgrees | src/TechnicalAnalysisOfStock/utils/indicators.py:28-35 | the older `sma` returns what the current one returns, for every argument |
| Indicators.BollingerBandsAgree | src/TechnicalAnalysisOfStock/utils/indicators.py:38-59 | the older `bollinger_bands` returns the same three lines as the current one |
| Indicators.MacdAgrees | src/TechnicalAnalysisOfStock/utils/indicators.py:62-89 | the older `macd` returns the same three lines as the current one |
| Indicators.EmaRecurrence | src/TechnicalAnalysisOfStock/utils/indicators.py:15-25 | the older EMA has the input's length, is seeded with the first price, and follows the `a = 2 / (span + 1)` recurrence |
| Indicators.SmaAt | src/TechnicalAnalysisOfStock/utils/indicators.py:28-35 | the older SMA is undefined before `window - 1`, then is the mean of the trailing window |
| Indicators.BollingerSymmetricAndFlat | src/TechnicalAnalysisOfStock/utils/indicators.py:53-59 | the older bands are symmetric about the middle band, and all three equal the price on a flat window |
| Indicators.MacdHistogram | src/TechnicalAnalysisOfStock/utils/indicators.py:83-89 | the older histogram is MACD minus signal, and all three lines start at zero |

## Left out

- Floating point. Every value is an exact `real`, so rounding error and the difference
  between `+0.0` and `-0.0` are not modelled.
- Infinities. A nonzero number divided by zero is infinite in pandas; here, like NaN,
  it is `None`. An infinite value therefore shows as "undefined":
  - in %K when the close lies outside a zero-width range;
  - in +DI and -DI when the average true range is zero but the average movement is not;
  - in VWAP where the cumulative volume is zero but the cumulative close times volume
    is not.

  In each case pandas shows `inf`. The later steps of ADX (dx and the ADX line) are
  NaN in pandas too, but a %D that averages an infinite %K is infinite there. RSI's
  infinite `rs` is the one infinity the source relies on, and it is modelled exactly:
  the RSI is 100.
- Square root. The rolling standard deviation takes its square root as a parameter,
  and results that need a true root require `IsSqrt`.
- Parameter range. pandas raises an exception for a `span` below 1 and for a negative
  `window`, `period`, `k_window` or `d_window`. The model does not model the exception:
  those arguments are excluded by a `requires` (`span >= 1`, the others `>= 0`). A
  window of 0 is accepted and modelled (see above).
- NaN in the input. The input price and volume columns hold no NaN. pandas' NaN
  skipping in `ewm` is not modelled.
- Frame index. Columns are aligned by position. pandas' index labels and index
  alignment are not modelled.
- `num_std` is the source's `int`. A fractional multiplier is not modelled.
- The rest of the repository is not part of this model:
  - the market-data download and column rename in `utils/download_data.py` and
    `utils/data.py` (network I/O);
  - the charting in `utils/candlestick_plot.py` and the plotting test scripts
    (rendering only);
  - the Streamlit dashboard and its language-model calls in `test5.py`, `test4.py`
    and `test_streamlit.py` (UI and network).
