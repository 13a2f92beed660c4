/** The daily-adjusted price bars the provider returns, and the ordering
    predicates the rest of the pipeline relies on. */
module Bars {

  /** A calendar day, counted in days from a fixed epoch (no time, no zone). */
  type Date = int

  /** One row of the daily-adjusted time series: the date index and the
      provider's eight columns, "1. open" through "8. split coefficient". */
  datatype Bar = Bar(
    date: Date,
    open: real,
    high: real,
    low: real,
    close: real,
    adjustedClose: real,
    volume: int,
    dividendAmount: real,
    splitCoefficient: real)

  /** Non-decreasing by date. */
  predicate Ascending(s: seq<Bar>) {
    forall i, j :: 0 <= i < j < |s| ==> s[i].date <= s[j].date
  }

  /** Strictly increasing by date: ascending with no repeated date. */
  predicate StrictlyAscending(s: seq<Bar>) {
    forall i, j :: 0 <= i < j < |s| ==> s[i].date < s[j].date
  }

  /** No two bars share a date, as when the bars come keyed by date. */
  predicate DistinctDates(s: seq<Bar>) {
    forall i, j :: 0 <= i < j < |s| ==> s[i].date != s[j].date
  }

  /** The closing prices, position by position. */
  function Closes(s: seq<Bar>): (r: seq<real>)
    ensures |r| == |s|
    ensures forall i :: 0 <= i < |s| ==> r[i] == s[i].close
  {
    seq(|s|, i requires 0 <= i < |s| => s[i].close)
  }

  /** The closes of a run of bars are that run of the closes. */
  lemma ClosesOfSlice(xs: seq<Bar>, lo: nat, hi: nat)
    requires lo <= hi <= |xs|
    ensures Closes(xs[lo..hi]) == Closes(xs)[lo..hi]
  {
  }
}
