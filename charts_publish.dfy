/** tools/1A_Charts_tools/1a_charts_publish.py: `publish_dashboard`, without the spreadsheet rendering. */
module ChartsPublish {
  import opened Wrappers
  import opened PyText
  import opened StateRecord
  import opened Dates
  import opened S3Paths
  import opened ChartsDatewise

  /** Months counted from January of year 0, so that consecutive months differ by one. */
  function MonthIndex(month: nat, year: nat): int {
    year * 12 + month - 1
  }

  /** The month before `month` of `year`: January rolls back to December of the year before. */
  function PrevMonth(month: nat, year: nat): (prev: (nat, nat))
    requires 1 <= month <= 12 && year >= 1
    ensures 1 <= prev.0 <= 12
    ensures MonthIndex(prev.0, prev.1) + 1 == MonthIndex(month, year)
  {
    var prevMonth := if month > 1 then month - 1 else 12;
    var prevYear := if prevMonth != 12 then year else year - 1;
    (prevMonth, prevYear)
  }

  /** Only one month is one before another: `PrevMonth` is the calendar's predecessor. */
  lemma PrevMonthIsUnique(month: nat, year: nat, m: nat, y: nat)
    requires 1 <= month <= 12 && year >= 1 && 1 <= m <= 12
    requires MonthIndex(m, y) + 1 == MonthIndex(month, year)
    ensures PrevMonth(month, year) == (m, y)
  {
    var (pm, py) := PrevMonth(month, year);
    assert py * 12 + pm == y * 12 + m;
  }

  predicate InMonth(row: Row, month: nat, year: nat) {
    row.date.month == month && row.date.year == year
  }

  /** The rows dated in `month` of `year`, in table order. */
  function Window(rows: seq<Row>, month: nat, year: nat): (w: seq<Row>)
    ensures forall r :: r in w <==> r in rows && InMonth(r, month, year)
    ensures |w| <= |rows|
  {
    if rows == [] then []
    else
      var init := rows[..|rows| - 1];
      var last := rows[|rows| - 1];
      assert rows == init + [last];
      Window(init, month, year) + (if InMonth(last, month, year) then [last] else [])
  }

  /** `groupby("Metric_Name")["Metric_Value"].last()` for one metric: the value of its last row. */
  function LastValue(rows: seq<Row>, metric: string): (v: Option<int>)
    ensures v.None? <==> forall i :: 0 <= i < |rows| ==> rows[i].metricName != metric
  {
    if rows == [] then None
    else if rows[|rows| - 1].metricName == metric then Some(rows[|rows| - 1].value)
    else LastValue(rows[..|rows| - 1], metric)
  }

  /** A row of the metric dated in the month. */
  predicate Counts(row: Row, month: nat, year: nat, metric: string) {
    InMonth(row, month, year) && row.metricName == metric
  }

  /** The row that holds the aggregate: the last one of the metric dated in the month. */
  predicate IsLastInMonth(rows: seq<Row>, i: int, month: nat, year: nat, metric: string) {
    && 0 <= i < |rows| && Counts(rows[i], month, year, metric)
    && forall j :: i < j < |rows| ==> !Counts(rows[j], month, year, metric)
  }

  lemma WindowAppend(init: seq<Row>, last: Row, month: nat, year: nat)
    ensures Window(init + [last], month, year) == Window(init, month, year) + (if InMonth(last, month, year) then [last] else [])
  {
    assert (init + [last])[..|init|] == init;
  }

  lemma LastValueAppend(w: seq<Row>, last: Row, metric: string)
    ensures LastValue(w + [last], metric) == if last.metricName == metric then Some(last.value) else LastValue(w, metric)
  {
    assert (w + [last])[..|w|] == w;
  }

  /**
   * The month's value of a metric is that of its last row in table order among
   * the rows dated in the month; there is none when the month has no row of it.
   */
  lemma {:induction false} MonthValueIsLastRow(rows: seq<Row>, month: nat, year: nat, metric: string)
    ensures MonthValueSpec(rows, month, year, metric)
  {
    if rows != [] {
      var init, last := rows[..|rows| - 1], rows[|rows| - 1];
      assert rows == init + [last];
      MonthValueIsLastRow(init, month, year, metric);
      MonthValueStep(init, last, month, year, metric);
    }
  }

  /** The two halves of the statement above, for one table. */
  ghost predicate MonthValueSpec(rows: seq<Row>, month: nat, year: nat, metric: string) {
    NoneWhenNoRow(rows, month, year, metric) && SomeIsLastRow(rows, month, year, metric)
  }

  ghost predicate NoneWhenNoRow(rows: seq<Row>, month: nat, year: nat, metric: string) {
    LastValue(Window(rows, month, year), metric).None? <==>
      forall i :: 0 <= i < |rows| ==> !Counts(rows[i], month, year, metric)
  }

  ghost predicate SomeIsLastRow(rows: seq<Row>, month: nat, year: nat, metric: string) {
    var v := LastValue(Window(rows, month, year), metric);
    v.Some? ==> exists i :: IsLastInMonth(rows, i, month, year, metric) && rows[i].value == v.value
  }

  /** Appending one row keeps the statement. */
  lemma MonthValueStep(init: seq<Row>, last: Row, month: nat, year: nat, metric: string)
    requires MonthValueSpec(init, month, year, metric)
    ensures MonthValueSpec(init + [last], month, year, metric)
  {
    MonthValueAfter(init, last, month, year, metric);
    NoneWhenNoRowStep(init, last, month, year, metric);
    SomeIsLastRowStep(init, last, month, year, metric);
  }

  lemma NoneWhenNoRowStep(init: seq<Row>, last: Row, month: nat, year: nat, metric: string)
    requires NoneWhenNoRow(init, month, year, metric)
    requires LastValue(Window(init + [last], month, year), metric) ==
      if Counts(last, month, year, metric) then Some(last.value) else LastValue(Window(init, month, year), metric)
    ensures NoneWhenNoRow(init + [last], month, year, metric)
  {
    var rows := init + [last];
    assert rows[|init|] == last;
    assert forall i :: 0 <= i < |init| ==> rows[i] == init[i];
  }

  lemma SomeIsLastRowStep(init: seq<Row>, last: Row, month: nat, year: nat, metric: string)
    requires SomeIsLastRow(init, month, year, metric)
    requires LastValue(Window(init + [last], month, year), metric) ==
      if Counts(last, month, year, metric) then Some(last.value) else LastValue(Window(init, month, year), metric)
    ensures SomeIsLastRow(init + [last], month, year, metric)
  {
    var rows := init + [last];
    if Counts(last, month, year, metric) {
      assert rows[|rows| - 1] == last;
      assert IsLastInMonth(rows, |rows| - 1, month, year, metric);
    } else {
      var v := LastValue(Window(init, month, year), metric);
      if v.Some? {
        var i :| IsLastInMonth(init, i, month, year, metric) && init[i].value == v.value;
        assert rows[i] == init[i];
        forall j | i < j < |rows|
          ensures !Counts(rows[j], month, year, metric)
        {
          if j < |init| {
            assert rows[j] == init[j];
          } else {
            assert rows[j] == last;
          }
        }
        assert IsLastInMonth(rows, i, month, year, metric);
      }
    }
  }

  /** The month's value after one more row: that row's value when it counts, otherwise unchanged. */
  lemma MonthValueAfter(init: seq<Row>, last: Row, month: nat, year: nat, metric: string)
    ensures LastValue(Window(init + [last], month, year), metric) ==
      if Counts(last, month, year, metric) then Some(last.value) else LastValue(Window(init, month, year), metric)
  {
    var w := Window(init, month, year);
    WindowAppend(init, last, month, year);
    if InMonth(last, month, year) {
      LastValueAppend(w, last, metric);
    } else {
      assert w + [] == w;
    }
  }

  /** The aggregate is the last row, not the latest date: a row listed later wins over a later day. */
  lemma LastRowBeatsLatestDate(metric: string)
    ensures var rows := [Row(Date(20, 9, 2025), metric, 5), Row(Date(10, 9, 2025), metric, 7)];
      LastValue(Window(rows, 9, 2025), metric) == Some(7)
  {
    var rows := [Row(Date(20, 9, 2025), metric, 5), Row(Date(10, 9, 2025), metric, 7)];
    assert rows[..1] == [rows[0]] && rows[..1][..0] == [];
    assert Window(rows, 9, 2025) == rows;
  }

  /** A value cell: "N/A" for an absent or zero value, otherwise the value in millions. */
  datatype Cell = NA | Millions(value: int)

  /** The change cell: a percentage of the two values, or "N/A". */
  datatype Change = NoChange | Percent(current: int, previous: int)

  /** One row of the dashboard. */
  datatype DashboardRow = DashboardRow(particulars: string, current: Cell, previous: Cell, change: Change)

  const Metrics: seq<string> := ["Total User Base Since Inception", "Total Activated"]

  /** `f"{v/1e6:.2f}M" if v else "N/A"` */
  function CellOf(v: Option<int>): (c: Cell)
    ensures c == NA <==> v.None? || v.value == 0
    ensures c.Millions? ==> c.value == v.value
  {
    if v.Some? && v.value != 0 then Millions(v.value) else NA
  }

  /** A change only when both values are present and non-zero. */
  function ChangeOf(current: Option<int>, previous: Option<int>): (c: Change)
    ensures c.Percent? <==> current.Some? && current.value != 0 && previous.Some? && previous.value != 0
    ensures c.Percent? ==> c == Percent(current.value, previous.value)
  {
    if current.Some? && current.value != 0 && previous.Some? && previous.value != 0
    then Percent(current.value, previous.value) else NoChange
  }

  /** The row for one metric: this month's and last month's aggregate. */
  function RowFor(rows: seq<Row>, target: Date, metric: string): (row: DashboardRow)
    requires 1 <= target.month <= 12 && target.year >= 1
    ensures var (pm, py) := PrevMonth(target.month, target.year);
      var current := LastValue(Window(rows, target.month, target.year), metric);
      var previous := LastValue(Window(rows, pm, py), metric);
      && row.particulars == metric
      && row.current == CellOf(current) && row.previous == CellOf(previous)
      && row.change == ChangeOf(current, previous)
  {
    var (pm, py) := PrevMonth(target.month, target.year);
    var current := LastValue(Window(rows, target.month, target.year), metric);
    var previous := LastValue(Window(rows, pm, py), metric);
    DashboardRow(metric, CellOf(current), CellOf(previous), ChangeOf(current, previous))
  }

  /** The change cell is present exactly when both value cells are. */
  lemma ChangeNeedsBothValues(rows: seq<Row>, target: Date, metric: string)
    requires 1 <= target.month <= 12 && target.year >= 1
    ensures var row := RowFor(rows, target, metric);
      row.change.Percent? <==> row.current.Millions? && row.previous.Millions?
  {
  }

  const ExportedPrefix: string := "\U{2705} Dashboard exported locally: "

  /** `f"1A_Charts_Dashboard_{date_obj}.xlsx"` under the output directory. */
  function DashboardFile(outputDir: string, target: Date): string
    requires Valid(target) && target.year < 10000
  {
    PathJoin(outputDir, "1A_Charts_Dashboard_" + IsoDate(target) + ".xlsx")
  }

  /** What `publish_dashboard` produces: the two month headers, the rows, the file, and the returned text. */
  datatype Dashboard = Dashboard(currentHeader: string, previousHeader: string, rows: seq<DashboardRow>,
                                 file: string, result: string)

  /**
   * `publish_dashboard(target_date, output_dir, upload_to_s3)` as a function of the
   * table, on a day the clock reads as `today`. A NaT target has no day and fails
   * like a text that does not parse.
   */
  function DashboardOf(rows: seq<Row>, csvPath: string, targetDate: string, outputDir: string, uploadToS3: bool,
                       today: ClockDate)
    : (r: Result<Dashboard, Failure>)
    ensures r.Err? <==> DateOf(targetDate, today).None?
    ensures r.Err? ==> r.error == ValueError(targetDate)
    ensures r.Ok? ==>
      var target := DateOf(targetDate, today).value;
      var (pm, py) := PrevMonth(target.month, target.year);
      && r.value.currentHeader == MonthHeader(target.month, target.year)
      && r.value.previousHeader == MonthHeader(pm, py)
      && |r.value.rows| == |Metrics|
      && (forall i :: 0 <= i < |Metrics| ==> r.value.rows[i] == RowFor(rows, target, Metrics[i]))
      && r.value.file == DashboardFile(outputDir, target)
      && r.value.result == WithUploadNote(ExportedPrefix + r.value.file, uploadToS3, csvPath, r.value.file)
  {
    match DateOf(targetDate, today)
    case None => Err(ValueError(targetDate))
    case Some(target) =>
      var (pm, py) := PrevMonth(target.month, target.year);
      var file := DashboardFile(outputDir, target);
      Ok(Dashboard(MonthHeader(target.month, target.year), MonthHeader(pm, py),
                   [RowFor(rows, target, Metrics[0]), RowFor(rows, target, Metrics[1])],
                   file, WithUploadNote(ExportedPrefix + file, uploadToS3, csvPath, file)))
  }

  lemma Decimal2025()
    ensures Decimal(2024) == "2024" && Decimal(2025) == "2025"
  {
    assert Decimal(2) == "2";
    assert Decimal(20) == Decimal(2) + "0" == "20";
    assert Decimal(202) == Decimal(20) + "2" == "202";
    assert Decimal(2024) == Decimal(202) + "4";
    assert Decimal(2025) == Decimal(202) + "5";
  }

  /** The four month headers the two examples below compare. */
  lemma Headers2025()
    ensures MonthHeader(9, 2025) == "Sep, 2025" && MonthHeader(8, 2025) == "Aug, 2025"
    ensures MonthHeader(1, 2025) == "Jan, 2025" && MonthHeader(12, 2024) == "Dec, 2024"
  {
    Decimal2025();
    assert MonthAbbrev(9) == "Sep" && MonthAbbrev(8) == "Aug";
    assert MonthAbbrev(1) == "Jan" && MonthAbbrev(12) == "Dec";
  }

  lemma September18(text: string)
    requires text == "18/09/25"
    ensures ParseDdMmYy(text) == Some(Date(18, 9, 2025))
  {
    ParseOfSlashed("18", "09", "25");
    assert "18" + "/" + "09" + "/" + "25" == text;
    TwoDigitFields("18");
    TwoDigitFields("09");
    TwoDigitFields("25");
  }

  lemma January15(text: string)
    requires text == "15/01/25"
    ensures ParseDdMmYy(text) == Some(Date(15, 1, 2025))
  {
    ParseOfSlashed("15", "01", "25");
    assert "15" + "/" + "01" + "/" + "25" == text;
    TwoDigitFields("15");
    TwoDigitFields("01");
    TwoDigitFields("25");
  }

  /** A September target is compared with August of the same year. */
  lemma SeptemberAgainstAugust(rows: seq<Row>, csvPath: string, outputDir: string, uploadToS3: bool, today: ClockDate)
    ensures var r := DashboardOf(rows, csvPath, "18/09/25", outputDir, uploadToS3, today);
      r.Ok? && r.value.currentHeader == "Sep, 2025" && r.value.previousHeader == "Aug, 2025"
  {
    September18("18/09/25");
    assert !IsNowText("18/09/25");
    assert DateOf("18/09/25", today) == Some(Date(18, 9, 2025));
    Headers2025();
    assert PrevMonth(9, 2025) == (8, 2025);
  }

  /** A January target is compared with December of the year before. */
  lemma JanuaryAgainstDecember(rows: seq<Row>, csvPath: string, outputDir: string, uploadToS3: bool, today: ClockDate)
    ensures var r := DashboardOf(rows, csvPath, "15/01/25", outputDir, uploadToS3, today);
      r.Ok? && r.value.currentHeader == "Jan, 2025" && r.value.previousHeader == "Dec, 2024"
  {
    January15("15/01/25");
    assert !IsNowText("15/01/25");
    assert DateOf("15/01/25", today) == Some(Date(15, 1, 2025));
    Headers2025();
    assert PrevMonth(1, 2025) == (12, 2024);
  }

  /** "now" and "today" compare the clock's month with the month before it. */
  lemma NowTargetIsCurrentMonth(rows: seq<Row>, csvPath: string, outputDir: string, uploadToS3: bool,
                                today: ClockDate, targetDate: string)
    requires IsNowText(targetDate)
    ensures var r := DashboardOf(rows, csvPath, targetDate, outputDir, uploadToS3, today);
      var (pm, py) := PrevMonth(today.month, today.year);
      && r.Ok?
      && r.value.currentHeader == MonthHeader(today.month, today.year)
      && r.value.previousHeader == MonthHeader(pm, py)
      && r.value.file == DashboardFile(outputDir, today)
  {
  }

  /** `OneAChartsPublisher`: the table, read once, and where it came from. */
  class OneAChartsPublisher {
    const rows: seq<Row>
    const csvPath: string

    /** `__init__` once the CSV is read into rows. */
    constructor (rows: seq<Row>, csvPath: string)
      ensures this.rows == rows && this.csvPath == csvPath
    {
      this.rows := rows;
      this.csvPath := csvPath;
    }

    /** The loop that appends one row per metric. */
    method BuildRows(target: Date) returns (table: seq<DashboardRow>)
      requires 1 <= target.month <= 12 && target.year >= 1
      ensures |table| == |Metrics|
      ensures forall i :: 0 <= i < |Metrics| ==> table[i] == RowFor(rows, target, Metrics[i])
    {
      table := [];
      for n := 0 to |Metrics|
        invariant |table| == n
        invariant forall i :: 0 <= i < n ==> table[i] == RowFor(rows, target, Metrics[i])
      {
        var metric := Metrics[n];
        var (pm, py) := PrevMonth(target.month, target.year);
        var current := LastValue(Window(rows, target.month, target.year), metric);
        var previous := LastValue(Window(rows, pm, py), metric);
        table := table + [DashboardRow(metric, CellOf(current), CellOf(previous), ChangeOf(current, previous))];
      }
    }

    /** `publish_dashboard(target_date, output_dir, upload_to_s3)`, on a day the clock reads as `today`. */
    method PublishDashboard(targetDate: string, outputDir: string, uploadToS3: bool, today: ClockDate)
      returns (r: Result<Dashboard, Failure>)
      ensures r == DashboardOf(rows, csvPath, targetDate, outputDir, uploadToS3, today)
    {
      var parsed := DateOf(targetDate, today);
      if parsed.None? {
        return Err(ValueError(targetDate));
      }
      var target := parsed.value;
      var (pm, py) := PrevMonth(target.month, target.year);
      var table := BuildRows(target);
      var file := DashboardFile(outputDir, target);
      var result := ExportedPrefix + file;
      result := WithUploadNote(result, uploadToS3, csvPath, file);
      r := Ok(Dashboard(MonthHeader(target.month, target.year), MonthHeader(pm, py), table, file, result));
      assert table == [RowFor(rows, target, Metrics[0]), RowFor(rows, target, Metrics[1])];
    }
  }
}
