/** The date range picker (date-input.jsx): a chosen range becomes the
    StartDate and EndDate selections as YYYY-MM-DD strings, and a single day
    asks for hourly grouping. */
module DateInput {
  import opened Base
  import opened Strings
  import opened JsValues
  import opened Filters
  import ChartData
  import ChartsPage

  /** A moment as the picker hands it over, in local time: `getMonth` is
      0-based, `getDate` 1-based, and the time of day is kept apart. */
  datatype LocalDate = LocalDate(year: int, month: int, day: int, timeOfDay: int)

  /** The fields a JavaScript Date always reports. */
  type Date = d: LocalDate | 0 <= d.month < 12 && 1 <= d.day <= 31 witness LocalDate(1970, 0, 1, 0)

  /** `areSameDay`: same year, month and day, whatever the time. */
  predicate AreSameDay(a: Date, b: Date) {
    a.year == b.year && a.month == b.month && a.day == b.day
  }

  /** `formatDate`: the year, then the month and the day padded to two
      digits, joined by '-'. */
  function FormatDate(d: Date): (r: string)
    ensures |r| > 0
  {
    IntToString(d.year) + "-" + PadStart2(NatToString(d.month + 1)) + "-" + PadStart2(NatToString(d.day))
  }

  /** Padding a decimal rendering with zeros keeps it digits and keeps its
      value. */
  lemma PadDigits(s: string)
    requires IsDigits(s)
    ensures IsDigits(PadStart2(s)) && DigitsValue(PadStart2(s)) == DigitsValue(s)
  {
    var r := PadStart2(s);
    forall i | 0 <= i < |r|
      ensures IsDigit(r[i])
    {
      if i >= |r| - |s| {
        assert r[i] == r[|r| - |s|..][i - (|r| - |s|)];
      }
    }
    if |s| == 1 {
      assert r[..1] == "0";
      assert r[..0] == "";
    } else if |s| == 0 {
      assert r[..1] == "0";
    }
  }

  /** The three pieces of a formatted date, for a year of our era. */
  lemma FormatDatePieces(d: Date)
    requires d.year >= 0
    ensures var p := Split(FormatDate(d), '-');
      |p| == 3 && IsDigits(p[0]) && IsDigits(p[1]) && IsDigits(p[2])
      && DigitsValue(p[0]) == d.year && DigitsValue(p[1]) == d.month + 1 && DigitsValue(p[2]) == d.day
      && |p[1]| == 2 && |p[2]| == 2
  {
    NatToStringBelow100(d.month + 1);
    NatToStringBelow100(d.day);
    var y, m, dd := NatToString(d.year), PadStart2(NatToString(d.month + 1)), PadStart2(NatToString(d.day));
    assert FormatDate(d) == y + "-" + m + "-" + dd;
    PadDigits(NatToString(d.month + 1));
    PadDigits(NatToString(d.day));
    DigitsValueOfNatToString(d.year);
    DigitsValueOfNatToString(d.month + 1);
    DigitsValueOfNatToString(d.day);
    ChartData.IsoDateSplit(y, m, dd);
  }

  /** What `formatDate` puts after the year: "-MM-DD". */
  function DaySuffix(d: Date): string {
    "-" + PadStart2(NatToString(d.month + 1)) + "-" + PadStart2(NatToString(d.day))
  }

  /** A month or day number below 100, padded, is two digits worth it. */
  lemma PaddedTwoDigits(n: nat)
    requires n < 100
    ensures var t := PadStart2(NatToString(n)); |t| == 2 && IsDigits(t) && DigitsValue(t) == n
  {
    NatToStringBelow100(n);
    PadDigits(NatToString(n));
    DigitsValueOfNatToString(n);
  }

  /** "-" + m + "-" + dd with two-character m and dd: where each piece sits. */
  lemma DashedPairAt(m: string, dd: string)
    requires |m| == 2 && |dd| == 2
    ensures var x := "-" + m + "-" + dd; |x| == 6 && x[1..3] == m && x[4..6] == dd
  {
    var x := "-" + m + "-" + dd;
    assert x[1..3] == m by { assert x[1] == m[0] && x[2] == m[1]; }
    assert x[4..6] == dd by { assert x[4] == dd[0] && x[5] == dd[1]; }
  }

  /** The text after the year always takes six characters and names the
      month and the day. */
  lemma DaySuffixShape(d: Date)
    ensures FormatDate(d) == IntToString(d.year) + DaySuffix(d)
    ensures |DaySuffix(d)| == 6
    ensures IsDigits(DaySuffix(d)[1..3]) && DigitsValue(DaySuffix(d)[1..3]) == d.month + 1
    ensures IsDigits(DaySuffix(d)[4..6]) && DigitsValue(DaySuffix(d)[4..6]) == d.day
  {
    var y, m, dd := IntToString(d.year), PadStart2(NatToString(d.month + 1)), PadStart2(NatToString(d.day));
    PaddedTwoDigits(d.month + 1);
    PaddedTwoDigits(d.day);
    DashedPairAt(m, dd);
    assert FormatDate(d) == y + DaySuffix(d) by {
      assert DaySuffix(d) == "-" + m + "-" + dd;
      assert FormatDate(d) == y + "-" + m + "-" + dd;
    }
  }

  /** Two dates format alike exactly when they are the same day, for every
      year: the year's text is what precedes a suffix of fixed length. */
  lemma FormatDateSameDay(a: Date, b: Date)
    ensures FormatDate(a) == FormatDate(b) <==> AreSameDay(a, b)
  {
    if FormatDate(a) == FormatDate(b) {
      DaySuffixShape(a);
      DaySuffixShape(b);
      var sa, sb := DaySuffix(a), DaySuffix(b);
      SameSplitPoint(IntToString(a.year), sa, IntToString(b.year), sb);
      IntToStringInjective(a.year, b.year);
      assert a.month == b.month by {
        assert sa[1..3] == sb[1..3];
      }
      assert a.day == b.day by {
        assert sa[4..6] == sb[4..6];
      }
    }
  }

  /** A picked date shows in the charts as its padded day and month. */
  lemma ChartLabelOfDate(d: Date, hourly: bool)
    requires d.year >= 0
    ensures ChartData.FormatDay(Str(FormatDate(d)), hourly) == Str(PadStart2(NatToString(d.day)) + "." + PadStart2(NatToString(d.month + 1)))
  {
    PadDigits(NatToString(d.month + 1));
    PadDigits(NatToString(d.day));
    ChartData.FormatDayOfIsoDate(NatToString(d.year), PadStart2(NatToString(d.month + 1)), PadStart2(NatToString(d.day)), hourly);
  }

  /** One `handleFilterChange(id, value)` call for a field outside the
      agency cascade: the field takes the value and nothing else moves. */
  function SetField(s: FiltersState, id: string, value: string): (r: FiltersState)
    requires id != "Agency" && id !in NumericFields
    ensures r.selected == s.selected[id := Str(value)]
    ensures r.options == s.options && r.emptyFlags == s.emptyFlags && r.loading == s.loading && r.error == s.error
  {
    var r := ChangeFilter(s, Direct(id, Str(value)));
    assert ChangedAs(s, r, id, Str(value));
    assert r.selected == s.selected[id := Str(value)];
    r
  }

  /** `handleDateChange`: a start alone gives a one-day range grouped by
      hour; a start and an end give that range, grouped by hour when they
      fall on the same day and by day otherwise; without a start nothing
      changes. */
  function DateChange(s: FiltersState, start: Option<Date>, end: Option<Date>): (r: FiltersState)
    ensures start.None? ==> r == s
    ensures start.Some? ==> r.selected == s.selected[
      "StartDate" := Str(FormatDate(start.value))][
      "EndDate" := Str(FormatDate(end.GetOr(start.value)))][
      "GroupBy" := Str(if end.None? || AreSameDay(start.value, end.value) then "HOUR" else "DAY")]
    ensures r.options == s.options && r.emptyFlags == s.emptyFlags && r.loading == s.loading && r.error == s.error
  {
    if start.None? then s
    else
      var first := FormatDate(start.value);
      var last := if end.Some? then FormatDate(end.value) else first;
      var grouping := if end.None? || AreSameDay(start.value, end.value) then "HOUR" else "DAY";
      SetField(SetField(SetField(s, "StartDate", first), "EndDate", last), "GroupBy", grouping)
  }

  /** The grouping is hourly exactly when the range sent is a single day. */
  lemma HourlyIffOneDay(s: FiltersState, start: Date, end: Option<Date>)
    ensures var r := DateChange(s, Some(start), end);
      r.selected["GroupBy"] == Str("HOUR") <==> r.selected["StartDate"] == r.selected["EndDate"]
  {
    var r := DateChange(s, Some(start), end);
    var first := FormatDate(start);
    var last := FormatDate(end.GetOr(start));
    var hourly := end.None? || AreSameDay(start, end.value);
    assert r.selected["GroupBy"] == Str(if hourly then "HOUR" else "DAY");
    assert r.selected["StartDate"] == Str(first);
    assert r.selected["EndDate"] == Str(last);
    if end.Some? {
      FormatDateSameDay(start, end.value);
    }
  }

  /** Once a start is picked, the charts have both dates to load with. */
  lemma PickedRangeLoadsCharts(s: FiltersState, start: Date, end: Option<Date>)
    ensures ChartsPage.ChartRequest(DateChange(s, Some(start), end).selected).Some?
  {
  }
}
