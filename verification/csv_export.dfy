/** Writing the annotated records through a dictionary-based CSV writer with
    a fixed list of field names. Cells are kept as typed values; their text
    rendering is the writer's and is not modelled. */
module CsvExport {
  import opened Wrappers
  import opened Bars
  import opened Trend

  /** A value handed to the writer for one field. `NaN` is an undefined
      average; `Blank` is the writer's filler for a field the row lacks. */
  datatype Cell = DateCell(day: Date) | RealCell(x: real) | IntCell(n: int) | NaN | Blank

  /** The writer refuses a row holding a key that is not a field name. */
  datatype CsvError = ValueError

  datatype CsvTable = CsvTable(header: seq<string>, rows: seq<seq<Cell>>)

  const FieldNames: seq<string> :=
    ["date", "open", "high", "low", "close", "adjusted_close", "volume",
     "dividend_amount", "SMA50", "SMA200"]

  function AverageCell(v: Option<real>): Cell {
    match v
    case None => NaN
    case Some(x) => RealCell(x)
  }

  /** The dictionary built for one record, keyed by field name. */
  function RowDict(rec: TrendRecord): map<string, Cell> {
    map[
      "date" := DateCell(rec.bar.date),
      "open" := RealCell(rec.bar.open),
      "high" := RealCell(rec.bar.high),
      "low" := RealCell(rec.bar.low),
      "close" := RealCell(rec.bar.close),
      "adjusted_close" := RealCell(rec.bar.adjustedClose),
      "volume" := IntCell(rec.bar.volume),
      "dividend_amount" := RealCell(rec.bar.dividendAmount),
      "SMA50" := AverageCell(rec.sma50),
      "SMA200" := AverageCell(rec.sma200)
    ]
  }

  /** A dictionary writer's row: the values laid out in field-name order,
      `Blank` for a missing field, and an error for a key that is not a
      field name. */
  function WriteRow(fieldnames: seq<string>, dict: map<string, Cell>): Result<seq<Cell>, CsvError> {
    if forall k | k in dict :: k in fieldnames then
      Success(seq(|fieldnames|, i requires 0 <= i < |fieldnames| =>
        if fieldnames[i] in dict then dict[fieldnames[i]] else Blank))
    else Failure(ValueError)
  }

  /** The exported row of a record: ten fields, the k-th drawn from the
      record's k-th exported attribute. */
  predicate RowOf(row: seq<Cell>, rec: TrendRecord) {
    && |row| == 10
    && row[0] == DateCell(rec.bar.date)
    && row[1] == RealCell(rec.bar.open)
    && row[2] == RealCell(rec.bar.high)
    && row[3] == RealCell(rec.bar.low)
    && row[4] == RealCell(rec.bar.close)
    && row[5] == RealCell(rec.bar.adjustedClose)
    && row[6] == IntCell(rec.bar.volume)
    && row[7] == RealCell(rec.bar.dividendAmount)
    && row[8] == AverageCell(rec.sma50)
    && row[9] == AverageCell(rec.sma200)
  }

  /** The writer never refuses a record's dictionary, and lays it out in the
      fixed column order. */
  lemma RecordRowWritten(rec: TrendRecord)
    ensures WriteRow(FieldNames, RowDict(rec)).Success?
    ensures RowOf(WriteRow(FieldNames, RowDict(rec)).value, rec)
  {
    var dict := RowDict(rec);
    DictKeysAreFieldNames(rec);
    var row := WriteRow(FieldNames, dict).value;
    assert |row| == 10;
    PriceColumns(rec, row);
    OtherColumns(rec, row);
  }

  /** Every key of a record's dictionary is one of the field names. */
  lemma DictKeysAreFieldNames(rec: TrendRecord)
    ensures forall k | k in RowDict(rec) :: k in FieldNames
  {
    assert RowDict(rec).Keys == set k | k in FieldNames;
  }

  lemma PriceColumns(rec: TrendRecord, row: seq<Cell>)
    requires forall k | k in RowDict(rec) :: k in FieldNames
    requires row == WriteRow(FieldNames, RowDict(rec)).value
    ensures row[1] == RealCell(rec.bar.open)
    ensures row[2] == RealCell(rec.bar.high)
    ensures row[3] == RealCell(rec.bar.low)
    ensures row[4] == RealCell(rec.bar.close)
    ensures row[5] == RealCell(rec.bar.adjustedClose)
  {
    var dict := RowDict(rec);
    assert row[1] == dict["open"];
    assert row[2] == dict["high"];
    assert row[3] == dict["low"];
    assert row[4] == dict["close"];
    assert row[5] == dict["adjusted_close"];
  }

  lemma OtherColumns(rec: TrendRecord, row: seq<Cell>)
    requires forall k | k in RowDict(rec) :: k in FieldNames
    requires row == WriteRow(FieldNames, RowDict(rec)).value
    ensures row[0] == DateCell(rec.bar.date)
    ensures row[6] == IntCell(rec.bar.volume)
    ensures row[7] == RealCell(rec.bar.dividendAmount)
    ensures row[8] == AverageCell(rec.sma50)
    ensures row[9] == AverageCell(rec.sma200)
  {
    var dict := RowDict(rec);
    assert row[0] == dict["date"];
    assert row[6] == dict["volume"];
    assert row[7] == dict["dividend_amount"];
    assert row[8] == dict["SMA50"];
    assert row[9] == dict["SMA200"];
  }

  /** The data rows, one per record in record order; the first refused row
      stops the export. */
  function WriteRows(recs: seq<TrendRecord>): (r: Result<seq<seq<Cell>>, CsvError>)
    ensures r.Success?
    ensures |r.value| == |recs|
    ensures forall i :: 0 <= i < |recs| ==> RowOf(r.value[i], recs[i])
    decreases |recs|
  {
    if |recs| == 0 then Success([])
    else
      RecordRowWritten(recs[0]);
      match WriteRow(FieldNames, RowDict(recs[0]))
      case Failure(e) => Failure(e)
      case Success(row) =>
        match WriteRows(recs[1..])
        case Failure(e) => Failure(e)
        case Success(rest) =>
          RowsInOrder(row, rest, recs);
          Success([row] + rest)
  }

  /** The row of the first record followed by the rows of the others are
      the rows of all the records, in order. */
  lemma RowsInOrder(row: seq<Cell>, rest: seq<seq<Cell>>, recs: seq<TrendRecord>)
    requires |recs| > 0 && RowOf(row, recs[0])
    requires |rest| == |recs| - 1
    requires forall i :: 0 <= i < |rest| ==> RowOf(rest[i], recs[1..][i])
    ensures forall i :: 0 <= i < |recs| ==> RowOf(([row] + rest)[i], recs[i])
  {
    forall i | 0 <= i < |recs|
      ensures RowOf(([row] + rest)[i], recs[i])
    {
      if i > 0 {
        assert ([row] + rest)[i] == rest[i - 1];
        assert recs[i] == recs[1..][i - 1];
      }
    }
  }

  /** The whole file: the header row of field names, then the data rows. */
  function ExportCsv(recs: seq<TrendRecord>): (r: Result<CsvTable, CsvError>)
    ensures r.Success?
    ensures r.value.header == FieldNames
    ensures |r.value.rows| == |recs|
    ensures forall i :: 0 <= i < |recs| ==> RowOf(r.value.rows[i], recs[i])
  {
    match WriteRows(recs)
    case Failure(e) => Failure(e)
    case Success(rows) => Success(CsvTable(FieldNames, rows))
  }

  /** What a file row records about a bar: every exported column. The split
      coefficient is not among them. */
  datatype CsvRecord = CsvRecord(
    date: Date, open: real, high: real, low: real, close: real,
    adjustedClose: real, volume: int, dividendAmount: real,
    sma50: Option<real>, sma200: Option<real>)

  function Exported(rec: TrendRecord): CsvRecord {
    CsvRecord(rec.bar.date, rec.bar.open, rec.bar.high, rec.bar.low, rec.bar.close,
              rec.bar.adjustedClose, rec.bar.volume, rec.bar.dividendAmount,
              rec.sma50, rec.sma200)
  }

  /** The exported attributes of each record, in record order. */
  function ExportedAll(recs: seq<TrendRecord>): (r: seq<CsvRecord>)
    ensures |r| == |recs|
    ensures forall i :: 0 <= i < |recs| ==> r[i] == Exported(recs[i])
  {
    seq(|recs|, i requires 0 <= i < |recs| => Exported(recs[i]))
  }

  function ReadReal(c: Cell): Option<real> {
    if c.RealCell? then Some(c.x) else None
  }

  /** An average field: a number, or NaN for an undefined average. */
  function ReadAverage(c: Cell): Option<Option<real>> {
    match c
    case RealCell(x) => Some(Some(x))
    case NaN => Some(None)
    case _ => None
  }

  /** Reads one data row back, position by position. */
  function ParseRow(row: seq<Cell>): Option<CsvRecord> {
    if |row| != 10 || !row[0].DateCell? || !row[6].IntCell? then None
    else
      var cells := [ReadReal(row[1]), ReadReal(row[2]), ReadReal(row[3]), ReadReal(row[4]),
                    ReadReal(row[5]), ReadReal(row[7])];
      var s50, s200 := ReadAverage(row[8]), ReadAverage(row[9]);
      if (exists k | 0 <= k < |cells| :: cells[k].None?) || s50.None? || s200.None? then None
      else Some(CsvRecord(row[0].day, cells[0].value, cells[1].value, cells[2].value,
                          cells[3].value, cells[4].value, row[6].n, cells[5].value,
                          s50.value, s200.value))
  }

  function ParseRows(rows: seq<seq<Cell>>): Option<seq<CsvRecord>>
    decreases |rows|
  {
    if |rows| == 0 then Some([])
    else
      match (ParseRow(rows[0]), ParseRows(rows[1..]))
      case (Some(r), Some(rest)) => Some([r] + rest)
      case _ => None
  }

  /** Reads a file back: the header must be the fixed field list. */
  function ParseCsv(t: CsvTable): Option<seq<CsvRecord>> {
    if t.header != FieldNames then None else ParseRows(t.rows)
  }

  /** Reading a row back recovers every exported attribute of its record. */
  lemma RowRoundTrip(row: seq<Cell>, rec: TrendRecord)
    requires RowOf(row, rec)
    ensures ParseRow(row) == Some(Exported(rec))
  {
  }

  /** Reading rows back recovers their records, in order. */
  lemma {:induction false} RowsRoundTrip(rows: seq<seq<Cell>>, recs: seq<TrendRecord>)
    requires |rows| == |recs|
    requires forall i :: 0 <= i < |recs| ==> RowOf(rows[i], recs[i])
    ensures ParseRows(rows) == Some(ExportedAll(recs))
    decreases |rows|
  {
    if |rows| > 0 {
      RowRoundTrip(rows[0], recs[0]);
      RowsRoundTrip(rows[1..], recs[1..]);
      assert ExportedAll(recs) == [Exported(recs[0])] + ExportedAll(recs[1..]);
    } else {
      assert ExportedAll(recs) == [];
    }
  }

  /** Export then re-read yields the records' exported attributes, undefined
      averages included, one per record in record order. */
  lemma ExportRoundTrip(recs: seq<TrendRecord>)
    ensures ParseCsv(ExportCsv(recs).value) == Some(ExportedAll(recs))
  {
    var t := ExportCsv(recs).value;
    RowsRoundTrip(t.rows, recs);
  }
}
