/** tools/1A_Charts_tools/1a_charts_lookup.py: `lookup_node`, with the lookup tool as an oracle. */
module ChartsLookupNode {
  import opened Wrappers
  import opened PyText
  import opened StateRecord

  /** The table `get_metric_value` returns: one with an "Error" column, or (Date, Metric_Value) rows. */
  datatype Table = ErrorColumn(entries: seq<string>) | ValueRows(rows: seq<(string, int)>)

  /** The tool call: a table, or the message of the exception it raised. */
  datatype ToolAnswer = Answered(table: Table) | Raised(message: string)

  /** The state the node returns, with the tool calls it made. */
  datatype LookupTrace = LookupTrace(state: State, calls: seq<(string, seq<string>)>)

  const MissingFields: string := "\U{26A0}\U{FE0F} Missing 'metric_name' or 'dates' in state."
  const FailedPrefix: string := "\U{26A0}\U{FE0F} Lookup failed: "
  /** The IndexError message of `.iloc[0]` on an empty column. */
  const OutOfBounds: string := "single positional indexer is out-of-bounds"

  /** `f"\U{1F4CA} {metric} values:\n"` */
  function ValuesHeader(metric: string): string {
    "\U{1F4CA} " + metric + " values:\n"
  }

  /** `f"{row['Date']}: {row['Metric_Value']:,}"` */
  function RowLine(row: (string, int)): string {
    row.0 + ": " + Thousands(row.1)
  }

  function RowLines(rows: seq<(string, int)>): (lines: seq<string>)
    ensures |lines| == |rows| && forall i :: 0 <= i < |rows| ==> lines[i] == RowLine(rows[i])
  {
    seq(|rows|, i requires 0 <= i < |rows| => RowLine(rows[i]))
  }

  /** The result text for what the tool answered. */
  function Rendered(metric: string, answer: ToolAnswer): (text: string)
    ensures answer.Raised? ==> text == FailedPrefix + answer.message
    ensures answer == Answered(ErrorColumn([])) ==> text == FailedPrefix + OutOfBounds
    ensures answer.Answered? && answer.table.ErrorColumn? && answer.table.entries != [] ==> text == answer.table.entries[0]
    ensures answer.Answered? && answer.table.ValueRows? ==>
      text == ValuesHeader(metric) + Join(RowLines(answer.table.rows), '\n')
  {
    match answer
    case Raised(message) => FailedPrefix + message
    case Answered(ErrorColumn(entries)) => if entries == [] then FailedPrefix + OutOfBounds else entries[0]
    case Answered(ValueRows(rows)) => ValuesHeader(metric) + Join(RowLines(rows), '\n')
  }

  /** `metric` and `dates` both truthy. */
  predicate HasInputs(s: State) {
    Truthy(s.metricName) && s.dates.Some? && s.dates.value != []
  }

  /** `lookup_node(state)` */
  function LookupNode(s: State, tool: (string, seq<string>) -> ToolAnswer): (t: LookupTrace)
    // `result` is always written and nothing else is
    ensures t.state.result.Some? && t.state == s.(result := t.state.result)
    // a missing or empty field: the warning, and no tool call
    ensures !HasInputs(s) <==> t.calls == []
    ensures !HasInputs(s) ==> t.state.result == Some(MissingFields)
    // otherwise exactly one call, with the state's own metric and dates
    ensures HasInputs(s) ==>
      && t.calls == [(s.metricName.value, s.dates.value)]
      && t.state.result == Some(Rendered(s.metricName.value, tool(s.metricName.value, s.dates.value)))
  {
    if !HasInputs(s) then LookupTrace(s.(result := Some(MissingFields)), [])
    else
      var metric, dates := s.metricName.value, s.dates.value;
      LookupTrace(s.(result := Some(Rendered(metric, tool(metric, dates)))), [(metric, dates)])
  }

  lemma {:induction false} GroupedChars(digits: string, c: char)
    requires c in Grouped(digits)
    ensures c == ',' || c in digits
    decreases |digits|
  {
    if |digits| > 3 {
      var head, tail := digits[..|digits| - 3], digits[|digits| - 3..];
      assert Grouped(digits) == Grouped(head) + "," + tail;
      if c in Grouped(head) {
        GroupedChars(head, c);
        assert c == ',' || c in digits by {
          if c != ',' {
            var i :| 0 <= i < |head| && head[i] == c;
            assert digits[i] == c;
          }
        }
      } else if c in tail {
        var i :| 0 <= i < |tail| && tail[i] == c;
        assert digits[|digits| - 3 + i] == c;
      }
    }
  }

  /** A value rendered with separators holds digits, commas and a sign, never a line break. */
  lemma ThousandsOnOneLine(n: int)
    ensures '\n' !in Thousands(n)
  {
    var d := Decimal(if n < 0 then -n else n);
    if '\n' in Grouped(d) {
      GroupedChars(d, '\n');
    }
  }

  /**
   * Each row is one line of the result: splitting what follows the header at
   * line breaks gives the rows' lines back, in row order, when no date text
   * holds a line break.
   */
  lemma RowsReadBack(metric: string, rows: seq<(string, int)>)
    requires rows != []
    requires forall i :: 0 <= i < |rows| ==> '\n' !in rows[i].0
    ensures var text := Rendered(metric, Answered(ValueRows(rows)));
      && text[..|ValuesHeader(metric)|] == ValuesHeader(metric)
      && Split(text[|ValuesHeader(metric)|..], '\n') == RowLines(rows)
  {
    var lines := RowLines(rows);
    forall i | 0 <= i < |lines| ensures '\n' !in lines[i] {
      ThousandsOnOneLine(rows[i].1);
      assert lines[i] == rows[i].0 + ": " + Thousands(rows[i].1);
    }
    SplitJoin(lines, '\n');
    var text := Rendered(metric, Answered(ValueRows(rows)));
    assert text == ValuesHeader(metric) + Join(lines, '\n');
    assert text[|ValuesHeader(metric)|..] == Join(lines, '\n');
  }
}
