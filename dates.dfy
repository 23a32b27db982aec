/**
 * Calendar dates as the chart tools see them: `pd.to_datetime(text, format="%d/%m/%y")`
 * as a partial parse, and the renderings `str(date)`, `%d/%m/%y` and `%b, %Y`.
 */
module Dates {
  import opened Wrappers
  import opened PyText

  datatype Date = Date(day: nat, month: nat, year: nat)

  predicate IsLeap(year: nat) {
    year % 4 == 0 && (year % 100 != 0 || year % 400 == 0)
  }

  function DaysInMonth(month: nat, year: nat): (n: nat)
    requires 1 <= month <= 12
    ensures 28 <= n <= 31
  {
    if month == 2 then (if IsLeap(year) then 29 else 28)
    else if month == 4 || month == 6 || month == 9 || month == 11 then 30
    else 31
  }

  /** A real calendar day. */
  predicate Valid(d: Date) {
    1 <= d.month <= 12 && 1 <= d.day <= DaysInMonth(d.month, d.year)
  }

  /** The years a two-digit `%y` can stand for. */
  predicate InTwoDigitRange(year: nat) {
    1969 <= year <= 2068
  }

  predicate AllDigits(t: string) {
    forall i :: 0 <= i < |t| ==> IsDigit(t[i])
  }

  /** The `%d` field: one or two digits worth 1..31, or a space and one digit 1..9. */
  function DayField(t: string): (r: Option<nat>)
    ensures r.Some? ==> 1 <= r.value <= 31
  {
    if |t| == 2 && t[0] == ' ' && IsDigit(t[1]) && t[1] != '0' then Some(DigitValue(t[1]))
    else if 1 <= |t| <= 2 && AllDigits(t) && 1 <= DecimalValue(t) <= 31 then Some(DecimalValue(t))
    else None
  }

  /** The `%m` field: one or two digits worth 1..12. */
  function MonthField(t: string): (r: Option<nat>)
    ensures r.Some? ==> 1 <= r.value <= 12
  {
    if 1 <= |t| <= 2 && AllDigits(t) && 1 <= DecimalValue(t) <= 12 then Some(DecimalValue(t)) else None
  }

  /** The `%y` field: exactly two digits; 00..68 are 2000..2068, 69..99 are 1969..1999. */
  function YearField(t: string): (r: Option<nat>)
    ensures r.Some? ==> InTwoDigitRange(r.value)
  {
    if |t| == 2 && AllDigits(t) then
      DigitsValue2(t);
      var v := DecimalValue(t);
      Some(if v <= 68 then 2000 + v else 1900 + v)
    else None
  }

  /** The three fields, each checked, then the day checked against the month. */
  function ParseFields(dayText: string, monthText: string, yearText: string): (r: Option<Date>)
    ensures r.Some? ==> Valid(r.value) && InTwoDigitRange(r.value.year)
  {
    match (DayField(dayText), MonthField(monthText), YearField(yearText))
    case (Some(day), Some(month), Some(year)) =>
      if day <= DaysInMonth(month, year) then Some(Date(day, month, year)) else None
    case _ => None
  }

  /**
   * The strict `%d/%m/%y` parse: `None` for a field that does not match, text
   * left over, or a day the month does not have. The texts pandas reads as NaT
   * and "now" and "today" are handled first, by `ToDatetime`.
   */
  function ParseDdMmYy(text: string): (r: Option<Date>)
    ensures r.Some? ==> Valid(r.value) && InTwoDigitRange(r.value.year)
    ensures '/' !in text ==> r.None?
  {
    var parts := Split(text, '/');
    assert '/' !in text ==> parts == [text] by {
      if '/' !in text {
        SplitFree(text, '/');
      }
    }
    if |parts| != 3 then None else ParseFields(parts[0], parts[1], parts[2])
  }

  /** The texts pandas turns into NaT without parsing: the empty string and its `nat_strings`. */
  predicate IsNaTText(t: string) {
    t == "" || t in {"NaT", "nat", "NAT", "nan", "NaN", "NAN"}
  }

  /** The two texts pandas reads as the current moment, whatever the format. */
  predicate IsNowText(t: string) {
    t == "now" || t == "today"
  }

  /** A day the system clock can report: Python's `date` holds the years 1 to 9999. */
  type ClockDate = d: Date | Valid(d) && 1 <= d.year <= 9999 witness Date(1, 1, 2000)

  /** What `pd.to_datetime` gives for one string: a day, or NaT. */
  datatype Timestamp = Day(date: Date) | NaT

  /**
   * `pd.to_datetime(text, format="%d/%m/%y")` on a day the clock reads as
   * `today`: NaT for the NaT texts, today for "now" and "today", a day for a
   * text the strict parse accepts, and `None` where pandas raises.
   */
  function ToDatetime(text: string, today: ClockDate): (r: Option<Timestamp>)
    ensures r == Some(NaT) <==> IsNaTText(text)
    ensures IsNowText(text) ==> r == Some(Day(today))
    ensures !IsNowText(text) ==> ((r.Some? && r.value.Day?) <==> ParseDdMmYy(text).Some?)
    ensures !IsNowText(text) && r.Some? && r.value.Day? ==> r.value.date == ParseDdMmYy(text).value
    ensures r.None? <==> !IsNaTText(text) && !IsNowText(text) && ParseDdMmYy(text).None?
  {
    if IsNaTText(text) then
      NaTTextHasNoDate(text);
      Some(NaT)
    else if IsNowText(text) then Some(Day(today))
    else
      match ParseDdMmYy(text)
      case Some(d) => Some(Day(d))
      case None => None
  }

  /** No NaT text holds a "/", so none of them is also a date. */
  lemma NaTTextHasNoDate(t: string)
    requires IsNaTText(t)
    ensures ParseDdMmYy(t).None?
  {
    assert '/' !in t;
  }

  /** The day `.date()` takes from the timestamp of `text`, when it is one. */
  function DateOf(text: string, today: ClockDate): (r: Option<Date>)
    ensures r.Some? ==> Valid(r.value) && 1 <= r.value.year <= 9999
    ensures r == if IsNowText(text) then Some(today) else ParseDdMmYy(text)
  {
    if IsNowText(text) then Some(today)
    else
      match ToDatetime(text, today)
      case Some(Day(d)) => Some(d)
      case _ => None
  }

  /** `date.strftime("%d/%m/%y")` */
  function FormatDdMmYy(d: Date): (text: string)
    requires Valid(d)
  {
    Join([Pad2(d.day), Pad2(d.month), Pad2(d.year % 100)], '/')
  }

  lemma Pad2NoSlash(n: nat)
    requires n < 100
    ensures '/' !in Pad2(n)
  {
    var p := Pad2(n);
    assert forall i :: 0 <= i < |p| ==> p[i] != '/';
  }

  /** Every date a two-digit year can name is read back from its `%d/%m/%y` text. */
  lemma ParseFormat(d: Date)
    requires Valid(d) && InTwoDigitRange(d.year)
    ensures ParseDdMmYy(FormatDdMmYy(d)) == Some(d)
  {
    var pieces := [Pad2(d.day), Pad2(d.month), Pad2(d.year % 100)];
    Pad2NoSlash(d.day);
    Pad2NoSlash(d.month);
    Pad2NoSlash(d.year % 100);
    SplitJoin(pieces, '/');
    FieldsOfPad2(d.day, d.month, d.year);
  }

  lemma FieldsOfPad2(day: nat, month: nat, year: nat)
    requires Valid(Date(day, month, year)) && InTwoDigitRange(year)
    ensures ParseFields(Pad2(day), Pad2(month), Pad2(year % 100)) == Some(Date(day, month, year))
  {
    DayOfPad2(day);
    MonthOfPad2(month);
    YearOfPad2(year);
  }

  lemma DayOfPad2(day: nat)
    requires 1 <= day <= 31
    ensures DayField(Pad2(day)) == Some(day)
  {
    TwoDigitFields(Pad2(day));
  }

  lemma MonthOfPad2(month: nat)
    requires 1 <= month <= 12
    ensures MonthField(Pad2(month)) == Some(month)
  {
    TwoDigitFields(Pad2(month));
  }

  lemma YearOfPad2(year: nat)
    requires InTwoDigitRange(year)
    ensures YearField(Pad2(year % 100)) == Some(year)
  {
    TwoDigitFields(Pad2(year % 100));
    assert year % 100 == if year >= 2000 then year - 2000 else year - 1900;
  }

  /** What each field makes of two digits. */
  lemma TwoDigitFields(t: string)
    requires |t| == 2 && IsDigit(t[0]) && IsDigit(t[1])
    ensures var v := 10 * DigitValue(t[0]) + DigitValue(t[1]);
      && DayField(t) == (if 1 <= v <= 31 then Some(v) else None)
      && MonthField(t) == (if 1 <= v <= 12 then Some(v) else None)
      && YearField(t) == Some(if v <= 68 then 2000 + v else 1900 + v)
  {
    DigitsValue2(t);
  }

  lemma DigitsValue2(t: string)
    requires |t| == 2 && IsDigit(t[0]) && IsDigit(t[1])
    ensures AllDigits(t) && DecimalValue(t) == 10 * DigitValue(t[0]) + DigitValue(t[1])
  {
    assert AllDigits(t);
    var head := t[..1];
    assert head == [t[0]] && head[..0] == [];
    assert DecimalValue(head) == DigitValue(t[0]);
    assert t[..|t| - 1] == head;
  }

  /** Three separator-free fields joined by "/" are parsed field by field. */
  lemma ParseOfSlashed(dayText: string, monthText: string, yearText: string)
    requires '/' !in dayText && '/' !in monthText && '/' !in yearText
    ensures ParseDdMmYy(dayText + "/" + monthText + "/" + yearText) == ParseFields(dayText, monthText, yearText)
  {
    var tail := monthText + ['/'] + yearText;
    assert dayText + "/" + monthText + "/" + yearText == dayText + ['/'] + tail;
    SplitAround(dayText, '/', tail);
    SplitAround(monthText, '/', yearText);
    SplitFree(dayText, '/');
    SplitFree(monthText, '/');
    SplitFree(yearText, '/');
  }

  /** Unpadded fields are accepted: "1/7/25" is 1 July 2025. */
  lemma UnpaddedFieldsParse(text: string)
    requires text == "1/7/25"
    ensures ParseDdMmYy(text) == Some(Date(1, 7, 2025))
  {
    ParseOfSlashed("1", "7", "25");
    assert "1" + "/" + "7" + "/" + "25" == text;
    TwoDigitFields("25");
    assert "1"[..0] == [] && "7"[..0] == [];
  }

  /** A day the month does not have makes the parse fail: there is no 31 February. */
  lemma ImpossibleDayFails(text: string)
    requires text == "31/02/25"
    ensures ParseDdMmYy(text).None?
  {
    ParseOfSlashed("31", "02", "25");
    assert "31" + "/" + "02" + "/" + "25" == text;
    TwoDigitFields("31");
    TwoDigitFields("02");
    TwoDigitFields("25");
  }

  /** Calendar order: year, then month, then day. */
  predicate NotAfter(a: Date, b: Date) {
    a.year < b.year || (a.year == b.year && (a.month < b.month || (a.month == b.month && a.day <= b.day)))
  }

  /** `str(date)`: `YYYY-MM-DD`. */
  function IsoDate(d: Date): (text: string)
    requires Valid(d) && d.year < 10000
    ensures |text| == 10 && text[4] == '-' && text[7] == '-'
    ensures forall i :: 0 <= i < 10 && i != 4 && i != 7 ==> IsDigit(text[i])
    ensures DecimalValue(text[..4]) == d.year && DecimalValue(text[5..7]) == d.month && DecimalValue(text[8..]) == d.day
  {
    var text := Pad4(d.year) + "-" + Pad2(d.month) + "-" + Pad2(d.day);
    assert text[..4] == Pad4(d.year) && text[5..7] == Pad2(d.month) && text[8..] == Pad2(d.day);
    Pad2Value(d.month);
    Pad2Value(d.day);
    text
  }

  /** `%b` in the C locale. */
  function MonthAbbrev(month: nat): (name: string)
    requires 1 <= month <= 12
    ensures |name| == 3
  {
    ["Jan", "Feb", "Mar", "Apr", "May", "Jun", "Jul", "Aug", "Sep", "Oct", "Nov", "Dec"][month - 1]
  }

  /** `strftime("%b, %Y")` for a month of a year, e.g. "Sep, 2025". */
  function MonthHeader(month: nat, year: nat): (header: string)
    requires 1 <= month <= 12
    ensures |header| == 5 + |Decimal(year)|
    ensures header[..5] == MonthAbbrev(month) + ", " && header[5..] == Decimal(year)
  {
    MonthAbbrev(month) + ", " + Decimal(year)
  }
}
