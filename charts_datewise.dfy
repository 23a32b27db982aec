/** tools/1A_Charts_tools/1a_charts_datewise_plot.py: per-date metric lookup and the chart's data and file names. */
module ChartsDatewise {
  import opened Wrappers
  import opened PyText
  import opened StateRecord
  import opened Dates
  import opened S3Paths

  /** One row of the 1A_Charts table: Date, Metric_Name, Metric_Value. */
  datatype Row = Row(date: Date, metricName: string, value: int)

  /** A value of the `results` dict: an int, `None` (no row, or a NaT date), or the "Error: ..." string of a date pandas rejects. */
  datatype Lookup = Value(value: int) | NoMatch | ParseError

  /** `results`: a dict from date strings, its keys in insertion order. */
  datatype Results = Results(keys: seq<string>, values: map<string, Lookup>)

  predicate Distinct(keys: seq<string>) {
    forall i, j :: 0 <= i < j < |keys| ==> keys[i] != keys[j]
  }

  /** The keys are listed once each and are exactly the keys of the map. */
  ghost predicate WellFormed(r: Results) {
    Distinct(r.keys) && forall k :: k in r.values <==> k in r.keys
  }

  /** The value of the first row, in table order, that has both the date and the metric. */
  function FirstMatch(rows: seq<Row>, date: Date, metricName: string): (v: Option<int>)
    ensures v.None? <==> forall i :: 0 <= i < |rows| ==> !(rows[i].date == date && rows[i].metricName == metricName)
    ensures v.Some? ==> exists i :: 0 <= i < |rows| && rows[i] == Row(date, metricName, v.value)
                         && forall j :: 0 <= j < i ==> !(rows[j].date == date && rows[j].metricName == metricName)
  {
    if rows == [] then None
    else if rows[0].date == date && rows[0].metricName == metricName then Some(rows[0].value)
    else
      var rest := FirstMatch(rows[1..], date, metricName);
      assert forall i :: 1 <= i < |rows| ==> rows[i] == rows[1..][i - 1];
      rest
  }

  /** The body of the `for` loop for one date string. */
  function LookupDate(rows: seq<Row>, metricName: string, today: ClockDate, text: string): (v: Lookup)
    ensures v == ParseError <==> ToDatetime(text, today).None?
    ensures IsNaTText(text) ==> v == NoMatch
    ensures IsNowText(text) ==>
      v == (match FirstMatch(rows, today, metricName) case Some(x) => Value(x) case None => NoMatch)
    ensures DateOf(text, today).Some? ==>
      v == (match FirstMatch(rows, DateOf(text, today).value, metricName) case Some(x) => Value(x) case None => NoMatch)
  {
    match ToDatetime(text, today)
    case None => ParseError
    case Some(NaT) => NoMatch
    case Some(Day(date)) =>
      match FirstMatch(rows, date, metricName)
      case Some(x) => Value(x)
      case None => NoMatch
  }

  /** `results[key] = value`: an existing key keeps its place and takes the new value; a new key goes last. */
  function Assign(r: Results, key: string, value: Lookup): (r': Results)
    requires WellFormed(r)
    ensures WellFormed(r')
    ensures r'.keys == if key in r.keys then r.keys else r.keys + [key]
    ensures r'.values == r.values[key := value]
  {
    if key in r.values then Results(r.keys, r.values[key := value])
    else Results(r.keys + [key], r.values[key := value])
  }

  /** The dict `get_metric` returns for the dates handled so far. */
  function MetricResults(rows: seq<Row>, metricName: string, today: ClockDate, dates: seq<string>): (r: Results)
    ensures WellFormed(r)
  {
    if dates == [] then Results([], map[])
    else
      var last := dates[|dates| - 1];
      Assign(MetricResults(rows, metricName, today, dates[..|dates| - 1]), last, LookupDate(rows, metricName, today, last))
  }

  /**
   * The dict has one entry per distinct date string (a repeated date keeps its
   * first place), and each entry holds that date's lookup.
   */
  lemma MetricResultsEntries(rows: seq<Row>, metricName: string, today: ClockDate, dates: seq<string>)
    ensures var r := MetricResults(rows, metricName, today, dates);
      && (forall d :: d in r.values <==> d in dates)
      && (forall d :: d in r.values ==> r.values[d] == LookupDate(rows, metricName, today, d))
  {
    MetricResultsKeys(rows, metricName, today, dates);
    MetricResultsValues(rows, metricName, today, dates);
  }

  lemma {:induction false} MetricResultsKeys(rows: seq<Row>, metricName: string, today: ClockDate, dates: seq<string>)
    ensures forall d :: d in MetricResults(rows, metricName, today, dates).values <==> d in dates
  {
    if dates != [] {
      MetricResultsKeys(rows, metricName, today, dates[..|dates| - 1]);
      MetricResultsStep(rows, metricName, today, dates);
      InSnoc(dates);
    }
  }

  /** One more date updates the dict at that date. */
  lemma MetricResultsStep(rows: seq<Row>, metricName: string, today: ClockDate, dates: seq<string>)
    requires dates != []
    ensures var last := dates[|dates| - 1];
      MetricResults(rows, metricName, today, dates).values
        == MetricResults(rows, metricName, today, dates[..|dates| - 1]).values[last := LookupDate(rows, metricName, today, last)]
  {
  }

  lemma InSnoc(s: seq<string>)
    requires s != []
    ensures forall x :: x in s <==> x in s[..|s| - 1] || x == s[|s| - 1]
  {
    assert s == s[..|s| - 1] + [s[|s| - 1]];
  }

  lemma {:induction false} MetricResultsValues(rows: seq<Row>, metricName: string, today: ClockDate, dates: seq<string>)
    ensures var values := MetricResults(rows, metricName, today, dates).values;
      forall d :: d in values ==> values[d] == LookupDate(rows, metricName, today, d)
  {
    if dates != [] {
      var init, last := dates[..|dates| - 1], dates[|dates| - 1];
      MetricResultsValues(rows, metricName, today, init);
      var values := MetricResults(rows, metricName, today, init).values;
      assert MetricResults(rows, metricName, today, dates).values == values[last := LookupDate(rows, metricName, today, last)];
    }
  }

  /** A date string already asked for adds no entry: the keys are the dates with repeats removed. */
  lemma RepeatedDateKeepsPlace(rows: seq<Row>, metricName: string, today: ClockDate, dates: seq<string>, d: string)
    requires d in dates
    ensures MetricResults(rows, metricName, today, dates + [d]).keys == MetricResults(rows, metricName, today, dates).keys
  {
    MetricResultsEntries(rows, metricName, today, dates);
    assert (dates + [d])[..|dates|] == dates;
  }

  /** `OneAChartsLookup`: the table, read once, and where it came from. */
  class OneAChartsLookup {
    const rows: seq<Row>
    const csvPath: string

    /** `__init__` once the CSV is read into rows. */
    constructor (rows: seq<Row>, csvPath: string)
      ensures this.rows == rows && this.csvPath == csvPath
    {
      this.rows := rows;
      this.csvPath := csvPath;
    }

    /** `get_metric(metric_name, dates)`, on a day the clock reads as `today`. */
    method GetMetric(metricName: string, dates: seq<string>, today: ClockDate) returns (results: Results)
      ensures results == MetricResults(rows, metricName, today, dates)
      ensures forall d :: d in results.values <==> d in dates
      ensures forall d :: d in results.values ==> results.values[d] == LookupDate(rows, metricName, today, d)
    {
      results := Results([], map[]);
      for n := 0 to |dates|
        invariant results == MetricResults(rows, metricName, today, dates[..n])
      {
        assert dates[..n + 1][..n] == dates[..n];
        results := Assign(results, dates[n], LookupDate(rows, metricName, today, dates[n]));
      }
      assert dates[..|dates|] == dates;
      MetricResultsEntries(rows, metricName, today, dates);
    }

    /** `plot_metric(metric_name, dates, output_dir, upload_to_s3)`, on a day the clock reads as `today`. */
    method PlotMetric(metricName: string, dates: seq<string>, outputDir: string, uploadToS3: bool, today: ClockDate)
      returns (r: Result<Chart, Failure>)
      ensures r == ChartOf(MetricResults(rows, metricName, today, dates), today, metricName, csvPath, outputDir, uploadToS3)
    {
      var results := GetMetric(metricName, dates, today);
      r := ChartOf(results, today, metricName, csvPath, outputDir, uploadToS3);
    }
  }

  /** A point of the chart. */
  datatype Point = Point(date: Date, value: int)

  predicate SortedByDate(ps: seq<Point>) {
    forall i, j :: 0 <= i < j < |ps| ==> NotAfter(ps[i].date, ps[j].date)
  }

  /**
   * The rows `.dropna()` keeps, as points, in key order: a key whose value is an
   * int and whose text is a date (a NaT key is dropped like a `None` value).
   */
  function NumericPoints(keys: seq<string>, values: map<string, Lookup>, today: ClockDate): (ps: seq<Point>)
    requires forall k :: k in keys ==> k in values
    ensures forall p :: p in ps <==> exists k :: k in keys && values[k] == Value(p.value) && DateOf(k, today) == Some(p.date)
  {
    if keys == [] then []
    else
      var rest := NumericPoints(keys[1..], values, today);
      assert forall k :: k in keys <==> k == keys[0] || k in keys[1..];
      if values[keys[0]].Value? && DateOf(keys[0], today).Some? then
        [Point(DateOf(keys[0], today).value, values[keys[0]].value)] + rest
      else rest
  }

  /** `p` put into a date-sorted sequence before the first point not earlier than it. */
  function Insert(p: Point, ps: seq<Point>): seq<Point> {
    if ps == [] || NotAfter(p.date, ps[0].date) then [p] + ps
    else [ps[0]] + Insert(p, ps[1..])
  }

  lemma {:induction false} InsertPermutes(p: Point, ps: seq<Point>)
    ensures multiset(Insert(p, ps)) == multiset(ps) + multiset{p}
  {
    if ps != [] && !NotAfter(p.date, ps[0].date) {
      InsertPermutes(p, ps[1..]);
      assert ps == [ps[0]] + ps[1..];
    }
  }

  lemma {:induction false} InsertSorted(p: Point, ps: seq<Point>)
    requires SortedByDate(ps)
    ensures SortedByDate(Insert(p, ps))
  {
    if ps == [] {
    } else if NotAfter(p.date, ps[0].date) {
      SortedCons(p, ps);
    } else {
      assert forall i :: 0 <= i < |ps[1..]| ==> ps[1..][i] == ps[i + 1];
      InsertSorted(p, ps[1..]);
      InsertLowerBound(p, ps[1..], ps[0].date);
      SortedCons(ps[0], Insert(p, ps[1..]));
    }
  }

  /** A point no later than every point of a sorted sequence can go in front of it. */
  lemma SortedCons(x: Point, rest: seq<Point>)
    requires SortedByDate(rest)
    requires rest != [] ==> NotAfter(x.date, rest[0].date)
    ensures SortedByDate([x] + rest)
  {
    var r := [x] + rest;
    forall i, j | 0 <= i < j < |r|
      ensures NotAfter(r[i].date, r[j].date)
    {
      assert r[j] == rest[j - 1];
      if i > 0 {
        assert r[i] == rest[i - 1];
      } else if j > 1 {
        assert NotAfter(rest[0].date, rest[j - 1].date);
      }
    }
  }

  /** Inserting a point keeps every point at or after a date both the point and the sequence respect. */
  lemma {:induction false} InsertLowerBound(p: Point, ps: seq<Point>, bound: Date)
    requires NotAfter(bound, p.date)
    requires forall i :: 0 <= i < |ps| ==> NotAfter(bound, ps[i].date)
    ensures forall i :: 0 <= i < |Insert(p, ps)| ==> NotAfter(bound, Insert(p, ps)[i].date)
  {
    if ps != [] && !NotAfter(p.date, ps[0].date) {
      assert forall i :: 0 <= i < |ps[1..]| ==> ps[1..][i] == ps[i + 1];
      InsertLowerBound(p, ps[1..], bound);
      var rest := Insert(p, ps[1..]);
      assert forall i :: 1 <= i < |[ps[0]] + rest| ==> ([ps[0]] + rest)[i] == rest[i - 1];
    } else {
      assert forall i :: 1 <= i < |[p] + ps| ==> ([p] + ps)[i] == ps[i - 1];
    }
  }

  /**
   * `idx` lists, in increasing order, the positions of exactly the keys whose
   * value is numeric, and point j is key idx[j]'s date and value.
   */
  ghost predicate Enumerates(idx: seq<nat>, keys: seq<string>, values: map<string, Lookup>, today: ClockDate, ps: seq<Point>) {
    |idx| == |ps| && PointsFrom(idx, keys, values, today, ps) && Increasing(idx) && Covers(idx, keys, values, today)
  }

  ghost predicate PointsFrom(idx: seq<nat>, keys: seq<string>, values: map<string, Lookup>, today: ClockDate, ps: seq<Point>)
    requires |idx| == |ps|
  {
    forall j :: 0 <= j < |idx| ==> PointAt(idx[j], keys, values, today, ps[j])
  }

  /** Point `p` is key `i`'s date and numeric value. */
  ghost predicate PointAt(i: nat, keys: seq<string>, values: map<string, Lookup>, today: ClockDate, p: Point) {
    i < |keys| && keys[i] in values && values[keys[i]] == Value(p.value) && DateOf(keys[i], today) == Some(p.date)
  }

  ghost predicate Increasing(idx: seq<nat>) {
    forall j, j' :: 0 <= j < j' < |idx| ==> idx[j] < idx[j']
  }

  ghost predicate Covers(idx: seq<nat>, keys: seq<string>, values: map<string, Lookup>, today: ClockDate) {
    forall i :: 0 <= i < |keys| && Plotted(keys[i], values, today) ==> i in idx
  }

  /** A key whose row survives `.dropna()`: an int value and a date. */
  ghost predicate Plotted(k: string, values: map<string, Lookup>, today: ClockDate) {
    k in values && values[k].Value? && DateOf(k, today).Some?
  }

  function Shift(idx: seq<nat>): (r: seq<nat>)
    ensures |r| == |idx| && forall j :: 0 <= j < |idx| ==> r[j] == idx[j] + 1
  {
    seq(|idx|, j requires 0 <= j < |idx| => idx[j] + 1)
  }

  /** One point per key that survives `.dropna()`, in key order. */
  lemma {:induction false} NumericPointsInKeyOrder(keys: seq<string>, values: map<string, Lookup>, today: ClockDate) returns (idx: seq<nat>)
    requires forall k :: k in keys ==> k in values
    ensures Enumerates(idx, keys, values, today, NumericPoints(keys, values, today))
  {
    if keys == [] {
      idx := [];
    } else {
      assert forall k :: k in keys[1..] ==> k in keys;
      var rest := NumericPointsInKeyOrder(keys[1..], values, today);
      var ps := NumericPoints(keys[1..], values, today);
      assert keys[0] in keys;
      ShiftIncreasing(rest);
      if Plotted(keys[0], values, today) {
        var v := values[keys[0]].value;
        assert NumericPoints(keys, values, today) == [Point(DateOf(keys[0], today).value, v)] + ps;
        TakePoints(rest, keys, values, today, ps, v);
        TakeCovers(rest, keys, values, today);
        idx := [0] + Shift(rest);
      } else {
        assert NumericPoints(keys, values, today) == ps;
        SkipPoints(rest, keys, values, today, ps);
        SkipCovers(rest, keys, values, today);
        idx := Shift(rest);
      }
    }
  }

  lemma SkipPoints(idx: seq<nat>, keys: seq<string>, values: map<string, Lookup>, today: ClockDate, ps: seq<Point>)
    requires keys != [] && |idx| == |ps| && PointsFrom(idx, keys[1..], values, today, ps)
    ensures PointsFrom(Shift(idx), keys, values, today, ps)
  {
    var sh := Shift(idx);
    forall j | 0 <= j < |sh|
      ensures PointAt(sh[j], keys, values, today, ps[j])
    {
      assert PointAt(idx[j], keys[1..], values, today, ps[j]);
      assert keys[sh[j]] == keys[1..][idx[j]];
    }
  }

  lemma TakePoints(idx: seq<nat>, keys: seq<string>, values: map<string, Lookup>, today: ClockDate, ps: seq<Point>, v: int)
    requires keys != [] && |idx| == |ps| && PointsFrom(idx, keys[1..], values, today, ps)
    requires keys[0] in values && values[keys[0]] == Value(v) && DateOf(keys[0], today).Some?
    ensures PointsFrom([0] + Shift(idx), keys, values, today, [Point(DateOf(keys[0], today).value, v)] + ps)
  {
    SkipPoints(idx, keys, values, today, ps);
    PointsFromCons(0, Shift(idx), keys, values, today, Point(DateOf(keys[0], today).value, v), ps);
  }

  /** A point at a key goes in front of points at keys. */
  lemma PointsFromCons(i: nat, idx: seq<nat>, keys: seq<string>, values: map<string, Lookup>, today: ClockDate, p: Point, ps: seq<Point>)
    requires |idx| == |ps| && PointsFrom(idx, keys, values, today, ps) && PointAt(i, keys, values, today, p)
    ensures PointsFrom([i] + idx, keys, values, today, [p] + ps)
  {
    var all := [i] + idx;
    var qs := [p] + ps;
    forall j | 1 <= j < |all|
      ensures PointAt(all[j], keys, values, today, qs[j])
    {
      assert all[j] == idx[j - 1] && qs[j] == ps[j - 1];
    }
  }

  lemma ShiftIncreasing(idx: seq<nat>)
    requires Increasing(idx)
    ensures Increasing(Shift(idx)) && Increasing([0] + Shift(idx))
  {
    var sh := Shift(idx);
    var all := [0] + sh;
    forall j, j' | 0 <= j < j' < |all|
      ensures all[j] < all[j']
    {
      assert all[j'] == sh[j' - 1];
      if j > 0 {
        assert all[j] == sh[j - 1];
      }
    }
  }

  lemma SkipCovers(idx: seq<nat>, keys: seq<string>, values: map<string, Lookup>, today: ClockDate)
    requires keys != [] && Covers(idx, keys[1..], values, today)
    requires !Plotted(keys[0], values, today)
    ensures Covers(Shift(idx), keys, values, today)
  {
    ShiftCovers(idx, keys, values, today);
  }

  lemma TakeCovers(idx: seq<nat>, keys: seq<string>, values: map<string, Lookup>, today: ClockDate)
    requires keys != [] && Covers(idx, keys[1..], values, today)
    ensures Covers([0] + Shift(idx), keys, values, today)
  {
    ShiftCovers(idx, keys, values, today);
    var all := [0] + Shift(idx);
    forall i | 0 <= i < |keys| && Plotted(keys[i], values, today)
      ensures i in all
    {
      if i > 0 {
        assert i in Shift(idx);
      }
    }
  }

  /** Every numeric key after the first is at a shifted position. */
  lemma ShiftCovers(idx: seq<nat>, keys: seq<string>, values: map<string, Lookup>, today: ClockDate)
    requires keys != [] && Covers(idx, keys[1..], values, today)
    ensures forall i :: 1 <= i < |keys| && Plotted(keys[i], values, today) ==> i in Shift(idx)
  {
    var sh := Shift(idx);
    forall i | 1 <= i < |keys| && Plotted(keys[i], values, today)
      ensures i in sh
    {
      assert keys[i] == keys[1..][i - 1];
      assert i - 1 in idx;
      var j :| 0 <= j < |idx| && idx[j] == i - 1;
      assert sh[j] == i;
    }
  }

  /** The points in date order: `sort_values("Date")`. */
  function SortByDate(ps: seq<Point>): (r: seq<Point>)
    ensures SortedByDate(r) && multiset(r) == multiset(ps)
  {
    if ps == [] then []
    else
      var rest := SortByDate(ps[1..]);
      InsertSorted(ps[0], rest);
      InsertPermutes(ps[0], rest);
      assert ps == [ps[0]] + ps[1..];
      Insert(ps[0], rest)
  }

  const ChartSuffix: string := "_chart.png"
  const SavedPrefix: string := "\U{1F4CA} Chart saved locally at "
  const NoValuesPrefix: string := "No valid values found for "

  /** `metric_name.replace(' ', '_')` */
  function Underscored(name: string): (r: string)
    ensures |r| == |name| && ' ' !in r
    ensures forall i :: 0 <= i < |r| ==> r[i] == (if name[i] == ' ' then '_' else name[i])
  {
    seq(|name|, i requires 0 <= i < |name| => if name[i] == ' ' then '_' else name[i])
  }

  /** What `plot_metric` produces: the plotted points, the PNG path, and the returned text. */
  datatype Chart = Chart(points: seq<Point>, file: string, result: string)

  /** The chart's file name under the output directory. */
  function ChartFile(metricName: string, outputDir: string): string {
    PathJoin(outputDir, Underscored(metricName) + ChartSuffix)
  }

  /** The first key that neither parses nor reads as NaT, if any. */
  function FirstBadKey(keys: seq<string>, today: ClockDate): (k: Option<string>)
    ensures k.None? <==> forall d :: d in keys ==> ToDatetime(d, today).Some?
    ensures k.Some? ==> k.value in keys && ToDatetime(k.value, today).None?
  {
    if keys == [] then None
    else if ToDatetime(keys[0], today).None? then Some(keys[0])
    else
      assert forall d :: d in keys <==> d == keys[0] || d in keys[1..];
      FirstBadKey(keys[1..], today)
  }

  /**
   * `plot_metric` after `get_metric`: every key is parsed again outside any `try`,
   * the numeric values are kept and sorted by date, an empty chart is a ValueError,
   * and the text names the saved file and, when uploaded, the S3 URI.
   */
  function ChartOf(results: Results, today: ClockDate, metricName: string, csvPath: string, outputDir: string, uploadToS3: bool)
    : (r: Result<Chart, Failure>)
    requires WellFormed(results)
    ensures FirstBadKey(results.keys, today).Some? ==> r == Err(ValueError(FirstBadKey(results.keys, today).value))
    ensures r.Ok? ==>
      && FirstBadKey(results.keys, today).None?
      && r.value.points != []
      && SortedByDate(r.value.points)
      && multiset(r.value.points) == multiset(NumericPoints(results.keys, results.values, today))
      && r.value.file == ChartFile(metricName, outputDir)
      && r.value.result == WithUploadNote(SavedPrefix + r.value.file, uploadToS3, csvPath, r.value.file)
    ensures FirstBadKey(results.keys, today).None? && NumericPoints(results.keys, results.values, today) == [] ==>
      r == Err(ValueError(NoValuesPrefix + metricName))
    // every key parses and some value is numeric: the chart is drawn
    ensures FirstBadKey(results.keys, today).None? && NumericPoints(results.keys, results.values, today) != [] ==> r.Ok?
  {
    match FirstBadKey(results.keys, today)
    case Some(key) => Err(ValueError(key))
    case None =>
      var points := SortByDate(NumericPoints(results.keys, results.values, today));
      if points == [] then
        assert |multiset(NumericPoints(results.keys, results.values, today))| == 0;
        Err(ValueError(NoValuesPrefix + metricName))
      else
        var file := ChartFile(metricName, outputDir);
        Ok(Chart(points, file, WithUploadNote(SavedPrefix + file, uploadToS3, csvPath, file)))
  }

  /** A date that `get_metric` reports as an error makes `plot_metric` raise. */
  lemma BadDateFailsPlot(rows: seq<Row>, metricName: string, today: ClockDate, dates: seq<string>, csvPath: string,
                         outputDir: string, uploadToS3: bool, d: string)
    requires d in dates && ToDatetime(d, today).None?
    ensures ChartOf(MetricResults(rows, metricName, today, dates), today, metricName, csvPath, outputDir, uploadToS3).Err?
  {
    MetricResultsEntries(rows, metricName, today, dates);
  }

  /**
   * A NaT date ("", "NaT", "nan", ...) is stored as `None` and its row is
   * dropped: asking for it as well changes neither the chart nor the error.
   */
  lemma NaTDateIsDropped(rows: seq<Row>, metricName: string, today: ClockDate, dates: seq<string>, csvPath: string,
                         outputDir: string, uploadToS3: bool, d: string)
    requires IsNaTText(d) && d !in dates
    ensures var r := MetricResults(rows, metricName, today, dates + [d]);
      && r.values[d] == NoMatch
      && ChartOf(r, today, metricName, csvPath, outputDir, uploadToS3)
         == ChartOf(MetricResults(rows, metricName, today, dates), today, metricName, csvPath, outputDir, uploadToS3)
  {
    var r := MetricResults(rows, metricName, today, dates);
    assert (dates + [d])[..|dates|] == dates;
    MetricResultsEntries(rows, metricName, today, dates);
    assert d !in r.keys;
    var r' := MetricResults(rows, metricName, today, dates + [d]);
    assert r'.keys == r.keys + [d] && r'.values == r.values[d := NoMatch];
    FirstBadKeySnoc(r.keys, today, d);
    NumericPointsSnocDropped(r.keys, r.values, today, d);
  }

  /**
   * A "now" or "today" date is the clock's day: when every requested date reads
   * as a day or NaT and today has a row for the metric, today's first value is plotted.
   */
  lemma NowDatePlotsToday(rows: seq<Row>, metricName: string, today: ClockDate, dates: seq<string>, csvPath: string,
                          outputDir: string, uploadToS3: bool, d: string, x: int)
    requires IsNowText(d) && d in dates
    requires forall e :: e in dates ==> ToDatetime(e, today).Some?
    requires FirstMatch(rows, today, metricName) == Some(x)
    ensures var c := ChartOf(MetricResults(rows, metricName, today, dates), today, metricName, csvPath, outputDir, uploadToS3);
      c.Ok? && Point(today, x) in c.value.points
  {
    var r := MetricResults(rows, metricName, today, dates);
    MetricResultsEntries(rows, metricName, today, dates);
    assert r.values[d] == Value(x);
    assert FirstBadKey(r.keys, today).None?;
    var points := NumericPoints(r.keys, r.values, today);
    assert Point(today, x) in points;
    var c := ChartOf(r, today, metricName, csvPath, outputDir, uploadToS3);
    assert c.Ok?;
    assert multiset(c.value.points) == multiset(points);
    assert Point(today, x) in multiset(c.value.points);
  }

  lemma {:induction false} FirstBadKeySnoc(keys: seq<string>, today: ClockDate, d: string)
    requires ToDatetime(d, today).Some?
    ensures FirstBadKey(keys + [d], today) == FirstBadKey(keys, today)
  {
    if keys == [] {
      assert [] + [d] == [d] && [d][1..] == [];
    } else {
      assert (keys + [d])[0] == keys[0] && (keys + [d])[1..] == keys[1..] + [d];
      FirstBadKeySnoc(keys[1..], today, d);
    }
  }

  /** A new last key with no int value adds no point, and the other keys keep theirs. */
  lemma {:induction false} NumericPointsSnocDropped(keys: seq<string>, values: map<string, Lookup>, today: ClockDate, d: string)
    requires forall k :: k in keys ==> k in values
    requires d !in keys
    ensures NumericPoints(keys + [d], values[d := NoMatch], today) == NumericPoints(keys, values, today)
  {
    var values' := values[d := NoMatch];
    if keys == [] {
      assert [] + [d] == [d] && [d][1..] == [];
    } else {
      assert keys[0] in keys && keys[0] != d;
      assert forall k :: k in keys[1..] ==> k in keys;
      assert (keys + [d])[0] == keys[0] && (keys + [d])[1..] == keys[1..] + [d];
      NumericPointsSnocDropped(keys[1..], values, today, d);
    }
  }

  /** A plotted point is the first matching row's value for one of the requested dates. */
  lemma ChartPointsComeFromDates(rows: seq<Row>, metricName: string, today: ClockDate, dates: seq<string>, csvPath: string,
                                 outputDir: string, uploadToS3: bool, p: Point)
    requires var c := ChartOf(MetricResults(rows, metricName, today, dates), today, metricName, csvPath, outputDir, uploadToS3);
      c.Ok? && p in c.value.points
    ensures exists d :: d in dates && DateOf(d, today) == Some(p.date) && FirstMatch(rows, p.date, metricName) == Some(p.value)
  {
    var r := MetricResults(rows, metricName, today, dates);
    var c := ChartOf(r, today, metricName, csvPath, outputDir, uploadToS3);
    var points := NumericPoints(r.keys, r.values, today);
    assert p in multiset(c.value.points);
    assert multiset(c.value.points) == multiset(points);
    assert p in points;
    var d :| d in r.keys && r.values[d] == Value(p.value) && DateOf(d, today) == Some(p.date);
    MetricResultsEntries(rows, metricName, today, dates);
    LookupValue(rows, metricName, today, d, p);
  }

  lemma LookupValue(rows: seq<Row>, metricName: string, today: ClockDate, d: string, p: Point)
    requires LookupDate(rows, metricName, today, d) == Value(p.value) && DateOf(d, today) == Some(p.date)
    ensures FirstMatch(rows, p.date, metricName) == Some(p.value)
  {
  }

  /** The chart file name turns the space of a two-word metric name into "_", under the output directory. */
  lemma ChartFileName(first: string, second: string, outputDir: string)
    requires ' ' !in first && ' ' !in second && first != [] && first[0] != '/'
    requires outputDir != [] && outputDir[|outputDir| - 1] == '/'
    ensures ChartFile(first + " " + second, outputDir) == outputDir + first + "_" + second + ChartSuffix
  {
    var name := first + " " + second;
    var joined := first + "_" + second;
    var u := Underscored(name);
    forall i | 0 <= i < |u|
      ensures u[i] == joined[i]
    {
      if i < |first| {
        assert name[i] == first[i] && joined[i] == first[i];
      } else if i > |first| {
        assert name[i] == second[i - |first| - 1] && joined[i] == second[i - |first| - 1];
      }
    }
    assert u == joined;
    assert (u + ChartSuffix)[..1] == [first[0]];
  }
}
