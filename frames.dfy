/**
 * The OHLCV table the indicators read: named columns of equal length, as a
 * pandas DataFrame holds them, and the failures a missing column causes.
 */
module Frames {
  import opened Series

  datatype Error =
    | MissingColumn(name: string)  // the `assert "<name>" in prices_ohlc.columns` checks
    | KeyError(name: string)       // indexing a DataFrame by a column it does not have

  datatype Result<+T> = Ok(value: T) | Err(error: Error)

  datatype Frame = Frame(columns: map<string, seq<real>>, length: nat)
  {
    /** Every column of a DataFrame has one value per row. */
    predicate Aligned()
    {
      forall c :: c in columns ==> |columns[c]| == length
    }
  }

  /** The columns `stochastic` and `adx` check for, in the order they check them. */
  const Ohlc: seq<string> := ["Open", "High", "Low", "Close"]

  /** The first of `names` that the frame lacks, if any. */
  function FirstMissing(prices: Frame, names: seq<string>): (r: Option<string>)
    ensures r.None? <==> forall k :: 0 <= k < |names| ==> names[k] in prices.columns
    ensures r.Some? ==> r.value !in prices.columns
    ensures r.Some? ==> exists k :: (0 <= k < |names| && names[k] == r.value
                                     && forall j :: 0 <= j < k ==> names[j] in prices.columns)
  {
    if |names| == 0 then None
    else if names[0] !in prices.columns then Some(names[0])
    else
      var rest := FirstMissing(prices, names[1..]);
      if rest.Some? then
        ghost var k :| (0 <= k < |names| - 1 && names[1..][k] == rest.value
                        && forall j :: 0 <= j < k ==> names[1..][j] in prices.columns);
        assert names[k + 1] == rest.value;
        rest
      else rest
  }
}
