/** Adding the two moving-average columns to a sequence of bars. */
module Trend {
  import opened Wrappers
  import opened Bars
  import opened MovingAverage

  /** A bar with its SMA50 and SMA200 values; `None` where the average is
      undefined (NaN in the data frame). */
  datatype TrendRecord = TrendRecord(bar: Bar, sma50: Option<real>, sma200: Option<real>)

  function BarsOf(rs: seq<TrendRecord>): (bs: seq<Bar>)
    ensures |bs| == |rs|
    ensures forall i :: 0 <= i < |rs| ==> bs[i] == rs[i].bar
  {
    seq(|rs|, i requires 0 <= i < |rs| => rs[i].bar)
  }

  /** One record per bar, in order, each carrying the trailing 50- and
      200-close averages of the sequence it was computed over. */
  function Annotate(bars: seq<Bar>): (r: seq<TrendRecord>)
    ensures |r| == |bars|
    ensures BarsOf(r) == bars
    ensures forall i :: 0 <= i < |bars| ==>
      r[i].sma50 == TrailingMean(Closes(bars), ShortWindow, i) &&
      r[i].sma200 == TrailingMean(Closes(bars), LongWindow, i)
  {
    var closes := Closes(bars);
    var short := Sma(closes, ShortWindow);
    var long := Sma(closes, LongWindow);
    seq(|bars|, i requires 0 <= i < |bars| => TrendRecord(bars[i], short[i], long[i]))
  }
}
