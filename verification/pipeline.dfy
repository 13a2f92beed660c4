/** The plot and export actions with the widgets, the chart and the network
    taken away: the search response and the fetched bars are parameters, and
    the data frame the plot leaves behind is an explicit application state. */
module StockPipeline {
  import opened Wrappers
  import opened Bars
  import opened DateSort
  import opened RangeSlice
  import opened MovingAverage
  import opened Trend
  import opened CompanyLookup
  import opened CsvExport

  /** The plot goes on only with a name that is truthy: neither missing nor
      the empty string. */
  predicate Usable(name: Option<string>) {
    name.Some? && name.value != ""
  }

  /** The data side of a plot: sort the fetched bars by date, slice them to
      [start, end], then add the two averages over the slice. */
  function TransformHistory(fetched: seq<Bar>, start: Date, end: Date): seq<TrendRecord> {
    Annotate(LabelSlice(SortByDate(fetched), start, end))
  }

  /** A transform keeps, in ascending date order, exactly the fetched bars
      dated within [start, end] (each as often as it was fetched), and gives
      each record the trailing averages of the kept closes. */
  lemma TransformContract(fetched: seq<Bar>, start: Date, end: Date)
    ensures Ascending(BarsOf(TransformHistory(fetched, start, end)))
    ensures forall b: Bar :: b in BarsOf(TransformHistory(fetched, start, end)) ==> InRange(b.date, start, end)
    ensures forall b: Bar :: InRange(b.date, start, end) ==>
      multiset(BarsOf(TransformHistory(fetched, start, end)))[b] == multiset(fetched)[b]
    ensures forall i :: 0 <= i < |TransformHistory(fetched, start, end)| ==>
      TransformHistory(fetched, start, end)[i].sma50 ==
        TrailingMean(Closes(BarsOf(TransformHistory(fetched, start, end))), ShortWindow, i)
    ensures forall i :: 0 <= i < |TransformHistory(fetched, start, end)| ==>
      TransformHistory(fetched, start, end)[i].sma200 ==
        TrailingMean(Closes(BarsOf(TransformHistory(fetched, start, end))), LongWindow, i)
  {
    var sorted := SortByDate(fetched);
    LabelSliceIsFilter(sorted, start, end);
  }

  /** Bars fetched with distinct dates come out strictly increasing by date. */
  lemma TransformStrictlyAscending(fetched: seq<Bar>, start: Date, end: Date)
    requires DistinctDates(fetched)
    ensures StrictlyAscending(BarsOf(TransformHistory(fetched, start, end)))
  {
    SortStrict(fetched);
    TransformUnfolds(fetched, start, end);
  }

  /** The position, in the sorted history, of the first bar a range keeps. */
  function RangeStart(fetched: seq<Bar>, start: Date): nat {
    Bound(SortByDate(fetched), start, Left)
  }

  /** One past the position, in the sorted history, of the last bar a range
      keeps. */
  function RangeEnd(fetched: seq<Bar>, end: Date): nat {
    Bound(SortByDate(fetched), end, Right)
  }

  /** A non-empty transform is the annotation of one contiguous run of the
      sorted history, from `RangeStart` up to `RangeEnd`; with
      `AveragesRestartOnRun` this says the transform's averages start over
      at the range's first bar instead of carrying the earlier closes. */
  lemma TransformIsRun(fetched: seq<Bar>, start: Date, end: Date)
    requires |TransformHistory(fetched, start, end)| > 0
    ensures RangeStart(fetched, start) < RangeEnd(fetched, end) <= |SortByDate(fetched)|
    ensures TransformHistory(fetched, start, end) ==
      Annotate(SortByDate(fetched)[RangeStart(fetched, start)..RangeEnd(fetched, end)])
  {
    var sorted := SortByDate(fetched);
    TransformUnfolds(fetched, start, end);
    SliceIsRun(sorted, start, end);
  }

  lemma TransformUnfolds(fetched: seq<Bar>, start: Date, end: Date)
    ensures TransformHistory(fetched, start, end) == Annotate(LabelSlice(SortByDate(fetched), start, end))
  {
  }

  /** Annotating a run `xs[lo..hi]` of a longer history restarts the
      averages at `lo`: record `j` is bar `lo + j`; its SMA50 is undefined
      while `j + 1 < 50`, even where the full history's is defined, and from
      `j + 1 = 50` on equals the full history's SMA50 at `lo + j`. The
      SMA200 likewise with 200. */
  lemma AveragesRestartOnRun(xs: seq<Bar>, lo: nat, hi: nat, j: nat)
    requires lo + j < hi <= |xs|
    ensures Annotate(xs[lo..hi])[j].bar == xs[lo + j]
    ensures j + 1 < ShortWindow ==> Annotate(xs[lo..hi])[j].sma50 == None
    ensures j + 1 < ShortWindow <= lo + j + 1 ==> TrailingMean(Closes(xs), ShortWindow, lo + j).Some?
    ensures j + 1 >= ShortWindow ==> Annotate(xs[lo..hi])[j].sma50 == TrailingMean(Closes(xs), ShortWindow, lo + j)
    ensures j + 1 < LongWindow ==> Annotate(xs[lo..hi])[j].sma200 == None
    ensures j + 1 < LongWindow <= lo + j + 1 ==> TrailingMean(Closes(xs), LongWindow, lo + j).Some?
    ensures j + 1 >= LongWindow ==> Annotate(xs[lo..hi])[j].sma200 == TrailingMean(Closes(xs), LongWindow, lo + j)
  {
    RunWindow(xs, lo, hi, j, ShortWindow);
    RunWindow(xs, lo, hi, j, LongWindow);
  }

  /** Position `j` of the run `xs[lo..hi]` is position `lo + j` of `xs`,
      and the run's `n`-close average there is that of `xs` from `j + 1 = n`
      on. */
  lemma RunWindow(xs: seq<Bar>, lo: nat, hi: nat, j: nat, n: nat)
    requires 1 <= n && lo + j < hi <= |xs|
    ensures xs[lo..hi][j] == xs[lo + j]
    ensures j + 1 < n ==> TrailingMean(Closes(xs[lo..hi]), n, j) == None
    ensures j + 1 < n <= lo + j + 1 ==> TrailingMean(Closes(xs), n, lo + j).Some?
    ensures j + 1 >= n ==> TrailingMean(Closes(xs[lo..hi]), n, j) == TrailingMean(Closes(xs), n, lo + j)
  {
    ClosesOfSlice(xs, lo, hi);
    AverageOfSlice(Closes(xs), lo, hi, n, j);
  }

  /** A history shorter than a window, with every bar inside the range,
      comes back whole with that window's average undefined everywhere. */
  lemma ShortHistoryHasNoAverages(fetched: seq<Bar>, start: Date, end: Date)
    requires forall k :: 0 <= k < |fetched| ==> InRange(fetched[k].date, start, end)
    ensures |TransformHistory(fetched, start, end)| == |fetched|
    ensures |fetched| < ShortWindow ==>
      forall i :: 0 <= i < |fetched| ==> TransformHistory(fetched, start, end)[i].sma50 == None
    ensures |fetched| < LongWindow ==>
      forall i :: 0 <= i < |fetched| ==> TransformHistory(fetched, start, end)[i].sma200 == None
  {
    var sorted := SortByDate(fetched);
    forall k | 0 <= k < |sorted|
      ensures InRange(sorted[k].date, start, end)
    {
      assert sorted[k] in multiset(fetched);
    }
    SliceKeepsAll(sorted, start, end);
  }

  /** When every fetched close is `c`, every defined average is `c`. */
  lemma ConstantCloseAverages(fetched: seq<Bar>, start: Date, end: Date, c: real)
    requires forall k :: 0 <= k < |fetched| ==> fetched[k].close == c
    ensures forall i :: 0 <= i < |TransformHistory(fetched, start, end)| ==>
      var rec := TransformHistory(fetched, start, end)[i];
      (rec.sma50.Some? ==> rec.sma50.value == c) && (rec.sma200.Some? ==> rec.sma200.value == c)
  {
    TransformContract(fetched, start, end);
    var r := TransformHistory(fetched, start, end);
    var closes := Closes(BarsOf(r));
    forall k | 0 <= k < |closes|
      ensures closes[k] == c
    {
      var b := r[k].bar;
      assert b == BarsOf(r)[k];
      assert b in multiset(BarsOf(r));
      assert b in multiset(fetched);
      var m :| 0 <= m < |fetched| && fetched[m] == b;
    }
    forall i | 0 <= i < |r|
      ensures r[i].sma50.Some? ==> r[i].sma50.value == c
      ensures r[i].sma200.Some? ==> r[i].sma200.value == c
    {
      ConstantSeriesMean(closes, c, ShortWindow, i);
      ConstantSeriesMean(closes, c, LongWindow, i);
    }
  }

  /** A range that begins after the last bar, or that ends before it
      begins, selects nothing. */
  lemma EmptyRanges(fetched: seq<Bar>, start: Date, end: Date)
    requires start > end || forall k :: 0 <= k < |fetched| ==> fetched[k].date < start
    ensures TransformHistory(fetched, start, end) == []
  {
    var sorted := SortByDate(fetched);
    forall j | 0 <= j < |sorted| && start <= end
      ensures sorted[j].date < start
    {
      assert sorted[j] in multiset(fetched);
    }
  }

  datatype PlotError = CompanyNameNotFound

  /** What a successful plot shows and keeps: the name and the records. */
  datatype Plot = Plot(companyName: string, records: seq<TrendRecord>)

  /** The plot action: resolve the name, stop on an unusable one, otherwise
      transform the fetched history. */
  function PlotStockData(resp: SearchResponse, fetched: seq<Bar>, start: Date, end: Date): (r: Result<Plot, PlotError>)
    ensures r.Failure? <==> !(resp.statusCode == HttpOk && |Matches(resp)| > 0 && Matches(resp)[0].name != "")
    ensures r.Success? ==> r.value.companyName == Matches(resp)[0].name
    ensures r.Success? ==> |r.value.records| <= |fetched|
  {
    var name := CompanyName(resp);
    if !Usable(name) then Failure(CompanyNameNotFound)
    else
      var records := TransformHistory(fetched, start, end);
      assert |BarsOf(records)| <= |fetched| by {
        TransformContract(fetched, start, end);
        assert multiset(BarsOf(records)) <= multiset(fetched);
      }
      Success(Plot(name.value, records))
  }

  /** The state the export action reads: the last successfully plotted data. */
  datatype App = App(stockData: Option<seq<TrendRecord>>)

  /** Pressing "Plot": a successful plot replaces the stored data; a failed
      one leaves the application as it was. */
  function PlotClicked(app: App, resp: SearchResponse, fetched: seq<Bar>, start: Date, end: Date): (next: App)
    ensures PlotStockData(resp, fetched, start, end).Failure? ==> next == app
    ensures PlotStockData(resp, fetched, start, end).Success? ==>
      next.stockData == Some(TransformHistory(fetched, start, end))
  {
    match PlotStockData(resp, fetched, start, end)
    case Failure(_) => app
    case Success(p) => App(Some(p.records))
  }

  datatype ExportError = NoStockData | WriteFailed(cause: CsvError)

  /** Pressing "Export CSV": refused until some plot has succeeded,
      otherwise the stored records written as a header and one row each. */
  function ExportClicked(app: App): (r: Result<CsvTable, ExportError>)
    ensures r.Failure? <==> app.stockData.None?
    ensures r.Success? ==> r.value.header == FieldNames
    ensures r.Success? ==> |r.value.rows| == |app.stockData.value|
    ensures r.Success? ==> forall i :: 0 <= i < |r.value.rows| ==> RowOf(r.value.rows[i], app.stockData.value[i])
  {
    match app.stockData
    case None => Failure(NoStockData)
    case Some(records) =>
      match ExportCsv(records)
      case Failure(e) => Failure(WriteFailed(e))
      case Success(t) => Success(t)
  }

  /** A plot that fails leaves the next export exactly as it would have been. */
  lemma FailedPlotKeepsExport(app: App, resp: SearchResponse, fetched: seq<Bar>, start: Date, end: Date)
    requires !Usable(CompanyName(resp))
    ensures ExportClicked(PlotClicked(app, resp, fetched, start, end)) == ExportClicked(app)
  {
  }

  /** Exporting after a plot whose range selects nothing writes the header only. */
  lemma EmptyRangeExportsHeaderOnly(resp: SearchResponse, fetched: seq<Bar>, start: Date, end: Date)
    requires Usable(CompanyName(resp))
    requires start > end || forall k :: 0 <= k < |fetched| ==> fetched[k].date < start
    ensures ExportClicked(PlotClicked(App(None), resp, fetched, start, end)) == Success(CsvTable(FieldNames, []))
  {
    EmptyRanges(fetched, start, end);
  }
}
