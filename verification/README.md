# StockTrendsApp: the retrieve-and-transform pipeline in Dafny

A model of the data side of the StockTrendsApp desktop tool. The tool resolves
a ticker symbol to a company name. It fetches the full daily price history,
sorts it by date and restricts it to the chosen date range. It then adds the
50- and 200-close simple moving averages and can write the result to a CSV
file. The window, the chart and the network are not modelled. The search
response and the fetched bars are parameters, and the data the plot stores for
the export button is an explicit application state (`StockPipeline.App`).

Modules, one per step of the pipeline:

- `Wrappers`: `Option` and `Result`.
- `Bars`: the daily bar and the ordering predicates on histories.
- `DateSort`: `sort_index(ascending=True)` as a functional insertion sort.
- `RangeSlice`: label slicing `data[start:end]` on a sorted date index. The
  start is found by a left search, the end by a right search, and the result
  is the positional slice between them; it is empty when the stop lies
  before the start. Both a linear definition (`Bound`) and a binary search
  (`SearchSorted`) are given. They are proved equal to a reference filter.
- `MovingAverage`: `rolling(window=n).mean()` as a reference definition
  (`TrailingMean`) and as a running-sum algorithm (`RollingMean`).
- `Trend`: a bar with its two averages.
- `CompanyLookup`: choosing the company name from a symbol-search response.
- `CsvExport`: the dictionary-based CSV writer with its fixed field list, and a
  reader used to state the round trip.
- `StockPipeline`: the plot and export actions.

Where the written design and the code differ, the model follows the code:

- The averages are computed over the range-filtered history (lines 100 to 104
  filter first, then average). The written design asks for the averages to be
  computed over the whole history first. As a result, the first 49 (199) records
  of any range have no SMA50 (SMA200), even when earlier bars exist.
  `StockPipeline.TransformIsRun` together with
  `StockPipeline.AveragesRestartOnRun` states this exactly.
- An undefined average is passed to the CSV writer as a NaN value, which it
  writes as `nan`. The written design asks for an empty field. The model keeps
  NaN as a `Cell` of its own (`CsvExport.NaN`), distinct from the writer's
  empty filler `CsvExport.Blank`.
- A company name that is the empty string stops the plot just as a missing
  name does (`if not company_name`, line 81).

## Model

| member | source | states |
|---|---|---|
| DateSort.Insert | StockTrendsApp.py:97 | inserting into an ascending history keeps it ascending and adds exactly the one bar (multiset) |
| DateSort.SortByDate | StockTrendsApp.py:97 | the sorted history is ascending by date, a permutation of the fetched bars, and of the same length |
| DateSort.InsertStrict | StockTrendsApp.py:97 | inserting a bar whose date is new keeps a strictly ascending history strict |
| DateSort.SortStrict | StockTrendsApp.py:97 | bars with distinct dates sort into a strictly increasing date order |
| DateSort.StrictPermutationUnique | StockTrendsApp.py:97 | two strictly ascending arrangements of the same bars are the same sequence |
| DateSort.SortIsOnlyStrictOrder | StockTrendsApp.py:97 | with distinct dates, any strictly ascending permutation of the fetched bars equals the sort result |
| DateSort.SortKeepsAscending | StockTrendsApp.py:97 | an already ascending history is returned unchanged |
| DateSort.SortIdempotent | StockTrendsApp.py:97 | sorting twice equals sorting once |
| RangeSlice.FilterRange | StockTrendsApp.py:100 | reference filter: an order-preserving subsequence holding only in-range bars, each in-range bar as often as in the input |
| RangeSlice.Bound | StockTrendsApp.py:100 | the search position: every bar before it precedes the key (date < key on the left side, <= on the right) and the bar at it does not |
| RangeSlice.BoundUnique | StockTrendsApp.py:100 | on any history the search position is the only split into preceding and non-preceding bars |
| RangeSlice.LabelSlice | StockTrendsApp.py:100 | the slice of an ascending history is ascending (strictly if the history is); it is empty when start > end, when every bar is before start, or when every bar is after end |
| RangeSlice.SliceIsRun | StockTrendsApp.py:100 | a non-empty slice is the contiguous run between the left bound of start and the right bound of end |
| RangeSlice.SliceKeepsAll | StockTrendsApp.py:100 | when every bar is inside the range the slice is the whole history |
| RangeSlice.LabelSliceIsFilter | StockTrendsApp.py:100 | on an ascending history the label slice equals the reference filter |
| RangeSlice.SearchSorted | StockTrendsApp.py:100 | binary search returns exactly the search position `Bound` |
| RangeSlice.SliceByDate | StockTrendsApp.py:100 | the slice computed with two binary searches equals the reference filter |
| MovingAverage.RollingMean | StockTrendsApp.py:103-104 | the running-sum rolling mean yields, at every position, the mean of the n closes ending there, or no value while fewer than n are available |
| MovingAverage.NoLookAhead | StockTrendsApp.py:103-104 | the average at position i depends only on closes up to i |
| MovingAverage.ConstantSeriesMean | StockTrendsApp.py:103-104 | over a constant series every defined average is that constant |
| MovingAverage.ShortSeriesUndefined | StockTrendsApp.py:103-104 | a series shorter than the window has no defined average anywhere |
| MovingAverage.AverageOfSlice | StockTrendsApp.py:100-104 | averaging a slice leaves its first n-1 positions undefined even where the full series has a value, and agrees with the full series from position n-1 on |
| CompanyLookup.CompanyName | StockTrendsApp.py:150-161 | a name is returned iff the status is 200 and the match list is present and non-empty, and it is the first match's name |
| CompanyLookup.OnlyFirstMatchCounts | StockTrendsApp.py:156-157 | responses with the same status and the same first match give the same result |
| CompanyLookup.AbsentMatchesLikeEmpty | StockTrendsApp.py:153 | a response without "bestMatches" behaves like an empty list: no name |
| CsvExport.RecordRowWritten | StockTrendsApp.py:176-195 | the writer accepts every record's dictionary and lays it out in the ten-column order, NaN for an undefined average |
| CsvExport.WriteRows | StockTrendsApp.py:183-195 | one row per record, in record order, each the record's row |
| CsvExport.ExportCsv | StockTrendsApp.py:176-195 | the file is the fixed header followed by one row per record, each the record's row |
| CsvExport.RowRoundTrip | StockTrendsApp.py:184-195 | reading a record's row back recovers every exported attribute |
| CsvExport.RowsRoundTrip | StockTrendsApp.py:183-195 | reading the rows back recovers the records' exported attributes in order |
| CsvExport.ExportRoundTrip | StockTrendsApp.py:176-195 | export then re-read yields exactly the exported attributes of every record, undefined averages included |
| StockPipeline.TransformContract | StockTrendsApp.py:97-104 | the transform keeps exactly the in-range fetched bars (with multiplicity), in ascending date order, each with the trailing averages of the kept closes |
| StockPipeline.TransformStrictlyAscending | StockTrendsApp.py:97-100 | with distinct fetched dates, the transform's dates strictly increase |
| StockPipeline.TransformIsRun | StockTrendsApp.py:97-104 | a non-empty transform is the annotation of one contiguous run of the sorted history, from the range's first bar on |
| StockPipeline.AveragesRestartOnRun | StockTrendsApp.py:100-104 | annotating such a run restarts the averages: record j is bar lo+j, undefined while j+1 < window, equal to the full history's average from j+1 = window on |
| StockPipeline.ShortHistoryHasNoAverages | StockTrendsApp.py:97-104 | a history that lies wholly in range comes back whole; if it is shorter than a window, that window's average is undefined everywhere |
| StockPipeline.ConstantCloseAverages | StockTrendsApp.py:97-104 | with a constant close, every defined SMA50 and SMA200 equals that close |
| StockPipeline.EmptyRanges | StockTrendsApp.py:97-100 | a range with start > end, or starting after the last bar, yields no records |
| StockPipeline.PlotStockData | StockTrendsApp.py:78-104 | the plot fails iff the status is not 200, there is no match, or the first name is empty; otherwise it carries that name and at most as many records as were fetched |
| StockPipeline.PlotClicked | StockTrendsApp.py:81-132 | a failed plot leaves the stored data unchanged; a successful one stores the transform |
| StockPipeline.ExportClicked | StockTrendsApp.py:163-195 | export is refused iff nothing is stored; otherwise it writes the header and one row per stored record |
| StockPipeline.FailedPlotKeepsExport | StockTrendsApp.py:81-83 | after a plot with an unusable name, the export result is what it was before |
| StockPipeline.EmptyRangeExportsHeaderOnly | StockTrendsApp.py:100-195 | exporting after a plot whose range selects nothing writes the header only |

## Left out

- The window, the widgets, the date pickers, the company label and the chart (lines 28 to 68, 86 and 106 to 129) are presentation only, and are left out. The plot's title and labels go with them. The empty initial state of line 71 is `StockPipeline.App(None)`.
- The HTTP request, its JSON decoding and the price-history call of the data library (lines 93 to 94 and 144 to 152) are left out. Their results are the parameters `SearchResponse` and `fetched`. A network failure or a body that is not JSON raises in the source; the model has no such case.
- A match without a "2. name" key raises `KeyError` at line 157. The model's `SearchMatch` always carries a name.
- Dates are whole day numbers. Turning the picked dates into "YYYY-MM-DD" strings and matching them against the index (lines 89 to 90 and 100) is left out. With one bar per day, that string match selects the same bars as the model's day comparison.
- Prices are exact reals. Floating-point rounding of the means, and the text form of numbers in the file, are left out.
- The export file name, the second name lookup that builds it (lines 170 to 172), opening and writing the file, and the message boxes are I/O and are left out.
- DateSort.SortByDate: when two bars share a date, their relative order is left open. Pandas' `sort_index` uses a non-stable quicksort by default. The model's contract asks only for ascending dates and a permutation. With distinct dates this fixes the result exactly (`DateSort.SortIsOnlyStrictOrder`).
- The split coefficient is kept in `Bars.Bar` but, as in the source, is not among the exported fields.
