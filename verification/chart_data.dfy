/** How the dashboard page turns the answers of the six reporting-service
    endpoints into charts (`transformDataToCharts` in charts.jsx), with the
    date and hour formatting its labels use and the hour order of the
    hourly chart. */
module ChartData {
  import opened Base
  import opened Strings
  import opened JsValues
  import opened StableSort

  datatype ChartKind = Line | Column | Area

  /** A chart as the page hands it to a chart card: a table whose first row
      holds the column headings. The title identifies the chart in the saved
      order and in the hidden list. Drawing options are left out. */
  datatype Chart = Chart(title: string, kind: ChartKind, isOnline: bool, data: seq<seq<JsValue>>)

  /** The answer of one endpoint: its rows, or None when the request was
      rejected (the settled promise's value is then `null`). */
  type Dataset = Option<seq<Record>>

  /** The six answers, in the order the page requests them. */
  datatype ChartSources = ChartSources(
    planVsPerformance: Dataset,
    performancePercentage: Dataset,
    plannedTrips: Dataset,
    linePerformance: Dataset,
    plannedChanges: Dataset,
    tripsPerformance: Dataset)

  /** The charts built, or the `TypeError` the hourly sort raises. */
  datatype Transformed = Charts(charts: seq<Chart>) | Threw

  const PlanVsPerformanceTitle := "תכנון / ביצוע"
  const PerformancePercentageTitle := "אחוז ביצוע"
  const PlannedChangesTitle := "שינויים מתוכננים"
  const PlannedTripsTitle := "סוג נסיעות מתוכנן"
  const HourlyDelaysTitle := "איחורים / הקדמות לפי שעות"
  const DelaySummaryTitle := "איחורים / הקדמות לתקופה"

  /** The fallback label of a monthly row, also the first heading. */
  const MonthLabel := "חודש"

  // ---------------------------------------------------------------------
  // Labels

  /** A piece of a `-`-split date as a template literal prints it: a piece
      that the destructuring did not find is `undefined`. */
  function PieceOrUndefined(parts: seq<string>, i: nat): string {
    if i < |parts| then parts[i] else "undefined"
  }

  /** `formatDay`: "N/A" for a missing value; in the hourly view a timestamp
      with AM or PM becomes its last space-separated word; a date with `-`
      becomes "DD.MM"; anything else is shown as it is. A value that is not
      a string makes `includes` throw, and the handler returns it unchanged. */
  function FormatDay(day: JsValue, hourly: bool): (r: JsValue)
    ensures !Truthy(day) ==> r == Str("N/A")
    ensures Truthy(day) && !day.Str? ==> r == day
    ensures r.Str? || r == day
    ensures day.Str? && day.s != "" && '-' !in day.s && !(hourly && (Contains(day.s, "AM") || Contains(day.s, "PM"))) ==> r == day
  {
    if !Truthy(day) then Str("N/A")
    else if !day.Str? then day
    else if hourly && (Contains(day.s, "AM") || Contains(day.s, "PM")) then Str(Last(Split(day.s, ' ')))
    else if '-' in day.s then
      var parts := Split(day.s, '-');
      Str(PieceOrUndefined(parts, 2) + "." + PieceOrUndefined(parts, 1))
    else day
  }

  /** Three digit strings joined by '-' split back into themselves. */
  lemma IsoDateSplit(y: string, m: string, d: string)
    requires IsDigits(y) && IsDigits(m) && IsDigits(d)
    ensures Split(y + "-" + m + "-" + d, '-') == [y, m, d]
  {
    assert Join([m, d], '-') == m + "-" + d by { JoinCons(m, [d], '-'); }
    JoinCons(y, [m, d], '-');
    assert Join([y, m, d], '-') == y + "-" + m + "-" + d;
    assert forall i :: 0 <= i < 3 ==> '-' !in [y, m, d][i];
    SplitJoin([y, m, d], '-');
  }

  /** A date of digits and dashes has no AM or PM in it. */
  lemma IsoDateHasNoMeridiem(y: string, m: string, d: string)
    requires IsDigits(y) && IsDigits(m) && IsDigits(d)
    ensures !Contains(y + "-" + m + "-" + d, "AM") && !Contains(y + "-" + m + "-" + d, "PM")
  {
    var s := y + "-" + m + "-" + d;
    assert 'A' !in s && 'P' !in s by {
      forall i | 0 <= i < |s|
        ensures s[i] != 'A' && s[i] != 'P'
      {
        if i < |y| {
          assert IsDigit(y[i]);
        } else if |y| < i < |y| + 1 + |m| {
          assert IsDigit(m[i - |y| - 1]);
        } else if |y| + 1 + |m| < i {
          assert IsDigit(d[i - |y| - 2 - |m|]);
        }
      }
    }
    NotContainsWithoutFirstChar(s, "AM");
    NotContainsWithoutFirstChar(s, "PM");
  }

  /** A "YYYY-MM-DD" date is shown as "DD.MM", in both views. */
  lemma FormatDayOfIsoDate(y: string, m: string, d: string, hourly: bool)
    requires IsDigits(y) && IsDigits(m) && IsDigits(d)
    ensures FormatDay(Str(y + "-" + m + "-" + d), hourly) == Str(d + "." + m)
  {
    var s := y + "-" + m + "-" + d;
    IsoDateSplit(y, m, d);
    IsoDateHasNoMeridiem(y, m, d);
    assert s[|y|] == '-';
  }

  /** `formatHourDisplay`: the last space-separated word of a string; a
      value that is not a string makes `split` throw and is returned. */
  function FormatHourDisplay(v: JsValue): JsValue {
    match v
    case Str(s) => Str(Last(Split(s, ' ')))
    case _ => v
  }

  /** Both formatters reduce a timestamp "<date> <time>" whose time has AM
      or PM to the time. */
  lemma TimestampLabels(date: string, time: string)
    requires ' ' !in time
    requires Contains(time, "AM") || Contains(time, "PM")
    ensures FormatHourDisplay(Str(date + " " + time)) == Str(time)
    ensures FormatDay(Str(date + " " + time), true) == Str(time)
  {
    LastPieceAfter(date, time, ' ');
    if Contains(time, "AM") {
      ContainsInSuffix(date + " ", time, "AM");
    } else {
      ContainsInSuffix(date + " ", time, "PM");
    }
  }

  // ---------------------------------------------------------------------
  // The hour order of the hourly chart

  /** `getTimeValue`: the hour of a timestamp such as "Apr 8 2025 1:00PM"
      on the 24-hour clock; NaN when `parseInt` cannot read the hour. */
  function HourOfDay(timestamp: string): JsNumber {
    var timePart := Last(Split(timestamp, ' '));
    var isPM := Contains(timePart, "PM");
    var hour := ParseInt(Split(timePart, ':')[0]);
    if hour.NaN? then NaN
    else if isPM && hour.i != 12 then Int(hour.i + 12)
    else if !isPM && hour.i == 12 then Int(0)
    else hour
  }

  /** A 12-hour clock time such as "1:00PM". */
  function ClockTime(h: nat, minutes: string, pm: bool): string {
    NatToString(h) + ":" + minutes + (if pm then "PM" else "AM")
  }

  /** The 24-hour reading of the 12-hour clock: 12AM is midnight and 12PM
      is noon. */
  function TwentyFourHour(h: nat, pm: bool): (r: nat)
    ensures 1 <= h <= 12 ==> r < 24 && (pm <==> r >= 12)
  {
    if pm then (if h == 12 then 12 else h + 12) else (if h == 12 then 0 else h)
  }

  /** A clock time has no space, and an AM time no 'P'. */
  lemma ClockTimeChars(h: nat, minutes: string, pm: bool)
    requires IsDigits(minutes)
    ensures ' ' !in ClockTime(h, minutes, pm)
    ensures !pm ==> 'P' !in ClockTime(h, minutes, pm)
  {
    var hs := NatToString(h);
    var time := ClockTime(h, minutes, pm);
    forall i | 0 <= i < |time|
      ensures time[i] != ' ' && (!pm ==> time[i] != 'P')
    {
      if i < |hs| {
        assert IsDigit(hs[i]);
      } else if |hs| < i < |hs| + 1 + |minutes| {
        assert IsDigit(minutes[i - |hs| - 1]);
      }
    }
  }

  /** The hour is the clock time's piece before the first ':'. */
  lemma ClockTimeHourPiece(h: nat, minutes: string, pm: bool)
    ensures Split(ClockTime(h, minutes, pm), ':')[0] == NatToString(h)
  {
    var hs := NatToString(h);
    var rest := minutes + (if pm then "PM" else "AM");
    assert ClockTime(h, minutes, pm) == hs + [':'] + rest;
    assert ':' !in hs by {
      forall i | 0 <= i < |hs|
        ensures hs[i] != ':'
      {
        assert IsDigit(hs[i]);
      }
    }
    SplitAround(hs, rest, ':');
  }

  /** A timestamp ending in a 12-hour clock time sorts by its 24-hour hour. */
  lemma HourOfClockTime(date: string, h: nat, minutes: string, pm: bool)
    requires IsDigits(minutes)
    ensures HourOfDay(date + " " + ClockTime(h, minutes, pm)) == Int(TwentyFourHour(h, pm))
  {
    var time := ClockTime(h, minutes, pm);
    ClockTimeChars(h, minutes, pm);
    LastPieceAfter(date, time, ' ');
    assert Last(Split(date + " " + time, ' ')) == time;
    ClockTimeHourPiece(h, minutes, pm);
    ParseIntOfNatToString(h);
    if pm {
      assert time == (NatToString(h) + ":" + minutes) + "PM";
      ContainsAtEnd(NatToString(h) + ":" + minutes, "PM");
    } else {
      NotContainsWithoutFirstChar(time, "PM");
    }
  }

  /** The comparator key of an hourly row: its hour, NaN when the hour does
      not parse or the row has no string `GroupBy`. */
  function HourRowKey(row: Record): SortKey {
    match Get(row, "GroupBy")
    case Str(s) =>
      var h := HourOfDay(s);
      if h.Int? then Finite(h.i) else Unordered
    case _ => Unordered
  }

  /** The hourly sort throws: with two rows or more every row is compared,
      and a row without a string `GroupBy` makes `split` throw. */
  predicate SortThrows(rows: seq<Record>) {
    |rows| >= 2 && exists i :: 0 <= i < |rows| && !Get(rows[i], "GroupBy").Str?
  }

  /** The rows of the hourly chart in hour order: a permutation of the input,
      ascending when every hour parses, and stable, so rows of one hour keep
      their input order. */
  function SortHourly(rows: seq<Record>): (sorted: seq<Record>)
    ensures |sorted| == |rows| && multiset(sorted) == multiset(rows)
    ensures AllComparable(rows, HourRowKey) ==> Sorted(sorted, HourRowKey)
    ensures forall k :: WithKey(sorted, HourRowKey, k) == WithKey(rows, HourRowKey, k)
  {
    SortPermutes(rows, HourRowKey);
    assert AllComparable(rows, HourRowKey) ==> Sorted(SortBy(rows, HourRowKey), HourRowKey) by {
      if AllComparable(rows, HourRowKey) {
        SortSorted(rows, HourRowKey);
      }
    }
    assert forall k :: WithKey(SortBy(rows, HourRowKey), HourRowKey, k) == WithKey(rows, HourRowKey, k) by {
      forall k
        ensures WithKey(SortBy(rows, HourRowKey), HourRowKey, k) == WithKey(rows, HourRowKey, k)
      {
        SortStable(rows, HourRowKey, k);
      }
    }
    SortBy(rows, HourRowKey)
  }

  // ---------------------------------------------------------------------
  // Cells

  /** A count cell `v || 0`: the value when truthy, 0 otherwise (never
      undefined, null or NaN). */
  predicate CountCell(cell: JsValue, v: JsValue) {
    (Truthy(v) ==> cell == v) && (!Truthy(v) ==> cell == Zero)
  }

  /** The label of a monthly row: `formatDay(GroupBy || Month || Date)`,
      falling back to "חודש". */
  function PeriodLabel(row: Record, hourly: bool): (r: JsValue)
    ensures Truthy(r)
  {
    Or(FormatDay(Or(Or(Get(row, "GroupBy"), Get(row, "Month")), Get(row, "Date")), hourly), Str(MonthLabel))
  }

  /** A row of the plan/performance chart. */
  function PlanVsPerformanceRow(row: Record, hourly: bool): (cells: seq<JsValue>)
    ensures |cells| == 3 && cells[0] == PeriodLabel(row, hourly)
    ensures CountCell(cells[1], Get(row, "Perfomerd")) && CountCell(cells[2], Get(row, "Planned"))
  {
    [PeriodLabel(row, hourly), Or(Get(row, "Perfomerd"), Zero), Or(Get(row, "Planned"), Zero)]
  }

  /** "תכנון / ביצוע": performed and planned trips per period. */
  function PlanVsPerformanceChart(rows: seq<Record>, hourly: bool): (c: Chart)
    ensures c.title == PlanVsPerformanceTitle && |c.data| == |rows| + 1
    ensures forall i :: 0 <= i < |rows| ==> c.data[i + 1] == PlanVsPerformanceRow(rows[i], hourly)
  {
    var body := seq(|rows|, i requires 0 <= i < |rows| => PlanVsPerformanceRow(rows[i], hourly));
    Chart(PlanVsPerformanceTitle, Line, false, [[Str(MonthLabel), Str("בוצע"), Str("מתוכנן")]] + body)
  }

  /** A row of the performance-percentage chart. */
  function PerformancePercentageRow(row: Record, hourly: bool): (cells: seq<JsValue>)
    ensures |cells| == 2 && cells[0] == PeriodLabel(row, hourly)
    ensures CountCell(cells[1], Get(row, "PerformancePercentage"))
  {
    [PeriodLabel(row, hourly), Or(Get(row, "PerformancePercentage"), Zero)]
  }

  /** "אחוז ביצוע": the performance percentage per period. */
  function PerformancePercentageChart(rows: seq<Record>, hourly: bool): (c: Chart)
    ensures c.title == PerformancePercentageTitle && |c.data| == |rows| + 1
    ensures forall i :: 0 <= i < |rows| ==> c.data[i + 1] == PerformancePercentageRow(rows[i], hourly)
  {
    var body := seq(|rows|, i requires 0 <= i < |rows| => PerformancePercentageRow(rows[i], hourly));
    Chart(PerformancePercentageTitle, Line, true, [[Str(MonthLabel), Str("אחוז ביצוע")]] + body)
  }

  /** A row of the planned-trips chart: the label has no fallback. */
  function PlannedTripsRow(row: Record, hourly: bool): (cells: seq<JsValue>)
    ensures |cells| == 3 && cells[0] == FormatDay(Get(row, "GroupBy"), hourly)
    ensures CountCell(cells[1], Get(row, "City")) && CountCell(cells[2], Get(row, "InterCity"))
  {
    [FormatDay(Get(row, "GroupBy"), hourly), Or(Get(row, "City"), Zero), Or(Get(row, "InterCity"), Zero)]
  }

  /** "סוג נסיעות מתוכנן": urban and intercity trips per period. */
  function PlannedTripsChart(rows: seq<Record>, hourly: bool): (c: Chart)
    ensures c.title == PlannedTripsTitle && |c.data| == |rows| + 1
    ensures forall i :: 0 <= i < |rows| ==> c.data[i + 1] == PlannedTripsRow(rows[i], hourly)
  {
    var body := seq(|rows|, i requires 0 <= i < |rows| => PlannedTripsRow(rows[i], hourly));
    Chart(PlannedTripsTitle, Line, false, [[Str(MonthLabel), Str("עירוני"), Str("בינעירוני")]] + body)
  }

  // ---------------------------------------------------------------------
  // Planned changes: rows grouped by period

  /** The property name a row's period becomes. */
  function GroupKey(row: Record): string {
    ToStr(Get(row, "GroupBy"))
  }

  /** The property name a row's category becomes. */
  function CategoryKey(row: Record): string {
    ToStr(Get(row, "CombinedCategory"))
  }

  /** The period keys of the rows, in row order. */
  function Keys(rows: seq<Record>): (ks: seq<string>)
    ensures |ks| == |rows|
  {
    if |rows| == 0 then [] else Keys(rows[..|rows| - 1]) + [GroupKey(rows[|rows| - 1])]
  }

  /** The distinct elements of `s` in the order of their first appearance. */
  function FirstSeen(s: seq<string>): seq<string> {
    if |s| == 0 then []
    else
      var p := FirstSeen(s[..|s| - 1]);
      if s[|s| - 1] in p then p else p + [s[|s| - 1]]
  }

  /** `FirstSeen` keeps exactly the elements of `s`. */
  lemma {:induction false} FirstSeenMembers(s: seq<string>)
    ensures forall x :: x in FirstSeen(s) <==> x in s
  {
    if |s| > 0 {
      var p := s[..|s| - 1];
      FirstSeenMembers(p);
      assert s == p + [s[|s| - 1]];
    }
  }

  /** `FirstSeen` has no repeated element. */
  lemma {:induction false} FirstSeenDistinct(s: seq<string>)
    ensures forall i, j :: 0 <= i < j < |FirstSeen(s)| ==> FirstSeen(s)[i] != FirstSeen(s)[j]
  {
    if |s| > 0 {
      FirstSeenDistinct(s[..|s| - 1]);
    }
  }

  /** Appending an element already seen changes nothing. */
  lemma FirstSeenSnoc(s: seq<string>, x: string)
    ensures FirstSeen(s + [x]) == if x in FirstSeen(s) then FirstSeen(s) else FirstSeen(s) + [x]
  {
    assert (s + [x])[..|s|] == s;
  }

  /** The amount of the last row of period `g` and category `c`: the one a
      later row overwrites the earlier ones with. */
  function LatestAmount(rows: seq<Record>, g: string, c: string): Option<JsValue> {
    if |rows| == 0 then None
    else
      var row := rows[|rows| - 1];
      if GroupKey(row) == g && CategoryKey(row) == c then Some(Get(row, "Amount"))
      else LatestAmount(rows[..|rows| - 1], g, c)
  }

  /** A period that no row has carries no amount. */
  lemma {:induction false} LatestAmountAbsent(rows: seq<Record>, g: string, c: string)
    requires g !in Keys(rows)
    ensures LatestAmount(rows, g, c) == None
  {
    if |rows| > 0 {
      LatestAmountAbsent(rows[..|rows| - 1], g, c);
    }
  }

  /** One period of the grouping: its name and the amounts per category. */
  datatype Group = Group(period: string, amounts: map<string, JsValue>)

  /** The four categories the chart shows, each starting at 0. */
  const FreshAmounts: map<string, JsValue> :=
    map["Times" := Zero, "Weekly" := Zero, "Daily" := Zero, "Stops" := Zero]

  /** The position of the group named `g`, if any. */
  function FindGroup(gs: seq<Group>, g: string): (r: Option<nat>)
    ensures r.Some? ==> r.value < |gs| && gs[r.value].period == g
    ensures r.None? ==> forall i :: 0 <= i < |gs| ==> gs[i].period != g
  {
    if |gs| == 0 then None
    else if gs[0].period == g then Some(0)
    else
      var r := FindGroup(gs[1..], g);
      if r.None? then None else Some(r.value + 1)
  }

  /** The `monthlyData` object the rows build: a group per period in order
      of first appearance, where each row sets its category's amount. */
  function GroupChanges(rows: seq<Record>): seq<Group> {
    if |rows| == 0 then []
    else
      var gs := GroupChanges(rows[..|rows| - 1]);
      var row := rows[|rows| - 1];
      var g, c, v := GroupKey(row), CategoryKey(row), Get(row, "Amount");
      var found := FindGroup(gs, g);
      if found.None? then gs + [Group(g, FreshAmounts[c := v])]
      else gs[found.value := Group(g, gs[found.value].amounts[c := v])]
  }

  function Labels(gs: seq<Group>): (ls: seq<string>)
    ensures |ls| == |gs| && forall i :: 0 <= i < |gs| ==> ls[i] == gs[i].period
  {
    seq(|gs|, i requires 0 <= i < |gs| => gs[i].period)
  }

  lemma LabelsUpdate(gs: seq<Group>, k: nat, gr: Group)
    requires k < |gs| && gr.period == gs[k].period
    ensures Labels(gs[k := gr]) == Labels(gs)
  {
  }

  lemma LabelsSnoc(gs: seq<Group>, gr: Group)
    ensures Labels(gs + [gr]) == Labels(gs) + [gr.period]
  {
  }

  /** `gs` is the grouping of `rows`: one group per distinct period in
      order of first appearance, each shown category holding the latest
      amount of that period, or 0. */
  ghost predicate Grouped(rows: seq<Record>, gs: seq<Group>) {
    Labels(gs) == FirstSeen(Keys(rows))
    && forall i, c :: 0 <= i < |gs| && c in FreshAmounts ==>
         c in gs[i].amounts && gs[i].amounts[c] == LatestAmount(rows, gs[i].period, c).GetOr(Zero)
  }

  /** The grouping the code builds is the one `Grouped` describes. */
  lemma {:induction false} GroupChangesGrouped(rows: seq<Record>)
    ensures Grouped(rows, GroupChanges(rows))
  {
    if |rows| > 0 {
      var p, row := rows[..|rows| - 1], rows[|rows| - 1];
      GroupChangesGrouped(p);
      var gs := GroupChanges(p);
      var g, c, v := GroupKey(row), CategoryKey(row), Get(row, "Amount");
      assert Keys(rows) == Keys(p) + [g];
      assert (Keys(p) + [g])[..|Keys(p)|] == Keys(p);
      var found := FindGroup(gs, g);
      if found.None? {
        GroupNew(rows, gs, c, v);
      } else {
        GroupExisting(rows, gs, found.value, c, v);
      }
    }
  }

  /** The step of `GroupChangesGrouped` for a row of a new period. */
  lemma {:induction false} GroupNew(rows: seq<Record>, gs: seq<Group>, c: string, v: JsValue)
    requires |rows| > 0
    requires Grouped(rows[..|rows| - 1], gs)
    requires c == CategoryKey(rows[|rows| - 1]) && v == Get(rows[|rows| - 1], "Amount")
    requires forall i :: 0 <= i < |gs| ==> gs[i].period != GroupKey(rows[|rows| - 1])
    ensures Grouped(rows, gs + [Group(GroupKey(rows[|rows| - 1]), FreshAmounts[c := v])])
  {
    var p, g := rows[..|rows| - 1], GroupKey(rows[|rows| - 1]);
    var gs' := gs + [Group(g, FreshAmounts[c := v])];
    FirstSeenMembers(Keys(p));
    assert g !in Labels(gs);
    assert g !in Keys(p);
    LabelsSnoc(gs, Group(g, FreshAmounts[c := v]));
    forall i, c' | 0 <= i < |gs'| && c' in FreshAmounts
      ensures c' in gs'[i].amounts && gs'[i].amounts[c'] == LatestAmount(rows, gs'[i].period, c').GetOr(Zero)
    {
      if i == |gs| {
        LatestAmountAbsent(p, g, c');
      } else {
        assert gs'[i] == gs[i];
      }
    }
  }

  /** The step of `GroupChangesGrouped` for a row of a known period. */
  lemma {:induction false} GroupExisting(rows: seq<Record>, gs: seq<Group>, k: nat, c: string, v: JsValue)
    requires |rows| > 0
    requires Grouped(rows[..|rows| - 1], gs)
    requires Keys(rows) == Keys(rows[..|rows| - 1]) + [GroupKey(rows[|rows| - 1])]
    requires c == CategoryKey(rows[|rows| - 1]) && v == Get(rows[|rows| - 1], "Amount")
    requires k < |gs| && gs[k].period == GroupKey(rows[|rows| - 1])
    ensures Grouped(rows, gs[k := Group(gs[k].period, gs[k].amounts[c := v])])
  {
    var p, g := rows[..|rows| - 1], GroupKey(rows[|rows| - 1]);
    var gs' := gs[k := Group(g, gs[k].amounts[c := v])];
    var ks := Keys(p);
    LabelsUpdate(gs, k, Group(g, gs[k].amounts[c := v]));
    assert g in FirstSeen(ks) by { assert Labels(gs)[k] == g; }
    FirstSeenSnoc(ks, g);
    DistinctPeriods(gs, ks);
    ExistingAmounts(rows, gs, k, c, v);
  }

  /** Groups named after the distinct periods have distinct names. */
  lemma {:induction false} DistinctPeriods(gs: seq<Group>, ks: seq<string>)
    requires Labels(gs) == FirstSeen(ks)
    ensures forall i, j :: 0 <= i < j < |gs| ==> gs[i].period != gs[j].period
  {
    FirstSeenDistinct(ks);
    forall i, j | 0 <= i < j < |gs|
      ensures gs[i].period != gs[j].period
    {
      assert Labels(gs)[i] == FirstSeen(ks)[i] && Labels(gs)[j] == FirstSeen(ks)[j];
    }
  }

  /** The amounts after a row of a known period: that period's category
      takes the row's amount, every other group is unchanged. */
  lemma {:induction false} ExistingAmounts(rows: seq<Record>, gs: seq<Group>, k: nat, c: string, v: JsValue)
    requires |rows| > 0
    requires forall i, c' :: 0 <= i < |gs| && c' in FreshAmounts ==>
      c' in gs[i].amounts && gs[i].amounts[c'] == LatestAmount(rows[..|rows| - 1], gs[i].period, c').GetOr(Zero)
    requires forall i, j :: 0 <= i < j < |gs| ==> gs[i].period != gs[j].period
    requires c == CategoryKey(rows[|rows| - 1]) && v == Get(rows[|rows| - 1], "Amount")
    requires k < |gs| && gs[k].period == GroupKey(rows[|rows| - 1])
    ensures var gs' := gs[k := Group(gs[k].period, gs[k].amounts[c := v])];
      forall i, c' :: 0 <= i < |gs'| && c' in FreshAmounts ==>
        c' in gs'[i].amounts && gs'[i].amounts[c'] == LatestAmount(rows, gs'[i].period, c').GetOr(Zero)
  {
    var p, g := rows[..|rows| - 1], gs[k].period;
    var gs' := gs[k := Group(g, gs[k].amounts[c := v])];
    forall i, c' | 0 <= i < |gs'| && c' in FreshAmounts
      ensures c' in gs'[i].amounts && gs'[i].amounts[c'] == LatestAmount(rows, gs'[i].period, c').GetOr(Zero)
    {
      if i != k {
        assert gs'[i] == gs[i];
        assert LatestAmount(rows, gs[i].period, c') == LatestAmount(p, gs[i].period, c');
      } else {
        assert LatestAmount(rows, g, c') == if c' == c then Some(v) else LatestAmount(p, g, c');
      }
    }
  }

  /** The cell of category `c` in the row of period `g`: the amount of
      the last such row `|| 0`, and 0 when there is none. */
  function ChangeCell(rows: seq<Record>, g: string, c: string): JsValue {
    Or(LatestAmount(rows, g, c).GetOr(Zero), Zero)
  }

  /** The row the planned-changes chart should show for period `g`. */
  function PeriodRow(rows: seq<Record>, g: string, hourly: bool): seq<JsValue> {
    [FormatDay(Str(g), hourly), ChangeCell(rows, g, "Times"), ChangeCell(rows, g, "Weekly"),
     ChangeCell(rows, g, "Daily"), ChangeCell(rows, g, "Stops")]
  }

  function AmountOf(gr: Group, c: string): JsValue {
    if c in gr.amounts then gr.amounts[c] else Undefined
  }

  /** The row the code emits for one group: `data.Times || 0` and so on. */
  function ChangeRow(gr: Group, hourly: bool): seq<JsValue> {
    [FormatDay(Str(gr.period), hourly), Or(AmountOf(gr, "Times"), Zero), Or(AmountOf(gr, "Weekly"), Zero),
     Or(AmountOf(gr, "Daily"), Zero), Or(AmountOf(gr, "Stops"), Zero)]
  }

  /** A group of the grouping emits the row its period should have. */
  lemma {:induction false} ChangeRowMatches(rows: seq<Record>, gs: seq<Group>, i: nat, hourly: bool)
    requires Grouped(rows, gs) && i < |gs|
    ensures ChangeRow(gs[i], hourly) == PeriodRow(rows, gs[i].period, hourly)
  {
    assert "Times" in FreshAmounts && "Weekly" in FreshAmounts && "Daily" in FreshAmounts && "Stops" in FreshAmounts;
  }

  /** The groups the code builds, read as chart rows: one per distinct
      period in order of first appearance, each the row its period should
      have. */
  lemma {:induction false} GroupRows(rows: seq<Record>, hourly: bool)
    ensures |GroupChanges(rows)| == |FirstSeen(Keys(rows))|
    ensures |rows| > 0 ==> |GroupChanges(rows)| > 0
    ensures forall i :: 0 <= i < |GroupChanges(rows)| ==>
      ChangeRow(GroupChanges(rows)[i], hourly) == PeriodRow(rows, FirstSeen(Keys(rows))[i], hourly)
  {
    var gs := GroupChanges(rows);
    GroupChangesGrouped(rows);
    forall i | 0 <= i < |gs|
      ensures ChangeRow(gs[i], hourly) == PeriodRow(rows, FirstSeen(Keys(rows))[i], hourly)
    {
      ChangeRowMatches(rows, gs, i, hourly);
      assert Labels(gs)[i] == gs[i].period;
    }
    if |rows| > 0 {
      FirstSeenMembers(Keys(rows));
      assert Keys(rows)[0] in FirstSeen(Keys(rows));
    }
  }

  /** "שינויים מתוכננים": one row per distinct period, in order of first
      appearance, holding for each category the amount of the last row of
      that period and category, or 0. */
  function PlannedChangesChart(rows: seq<Record>, hourly: bool): (ch: Chart)
    ensures ch.title == PlannedChangesTitle
    ensures |ch.data| == |FirstSeen(Keys(rows))| + 1
    ensures |rows| > 0 ==> |ch.data| >= 2
    ensures forall i :: 0 <= i < |FirstSeen(Keys(rows))| ==>
      ch.data[i + 1] == PeriodRow(rows, FirstSeen(Keys(rows))[i], hourly)
  {
    var gs := GroupChanges(rows);
    GroupRows(rows, hourly);
    var body := seq(|gs|, i requires 0 <= i < |gs| => ChangeRow(gs[i], hourly));
    Chart(PlannedChangesTitle, Line, false, [[Str(MonthLabel), Str("זמנים"), Str("שבועי"), Str("יומי"), Str("תחנות")]] + body)
  }

  // ---------------------------------------------------------------------
  // Delays and early departures

  const HourlyHeader: seq<JsValue> :=
    [Str("שעה"), Str("בזמן"), Str("הקדמה עד 2 דקות"), Str("הקדמה 3 דקות ומעלה"), Str("עד 5 דקות"),
     Str("6-10 דקות"), Str("11-20 דקות"), Str("מעל 20 דקות"), Str("לא בוצע")]

  /** A row of the hourly chart: the time and the eight counts as given. */
  function HourlyRow(row: Record): seq<JsValue> {
    [FormatHourDisplay(Get(row, "GroupBy")), Get(row, "OnTime"), Get(row, "EarlyUpTo2Minutes"),
     Get(row, "EarlyMoreThan2Minutes"), Get(row, "LateUpTo5Minutes"), Get(row, "Late6To10Minutes"),
     Get(row, "Late11To20Minutes"), Get(row, "LateOver20Minutes"), Get(row, "UnPerformed")]
  }

  /** "איחורים / הקדמות לפי שעות": one row per input row, in hour order. */
  function HourlyDelaysChart(rows: seq<Record>): (c: Chart)
    ensures c.title == HourlyDelaysTitle && |c.data| == |rows| + 1
    ensures forall i :: 0 <= i < |rows| ==> c.data[i + 1] == HourlyRow(SortHourly(rows)[i])
  {
    var sorted := SortHourly(rows);
    var body := seq(|sorted|, i requires 0 <= i < |sorted| => HourlyRow(sorted[i]));
    var data := [HourlyHeader] + body;
    assert forall i :: 0 <= i < |body| ==> data[i + 1] == body[i];
    Chart(HourlyDelaysTitle, Column, false, data)
  }

  /** The summary categories in display order, each with the field it sums;
      on-time trips are not summed. */
  const DelayCategories: seq<(string, string)> := [
    ("הקדמה 3 דקות ומעלה", "EarlyMoreThan2Minutes"),
    ("הקדמה עד 2 דקות", "EarlyUpTo2Minutes"),
    ("עד 5 דקות", "LateUpTo5Minutes"),
    ("6-10 דקות", "Late6To10Minutes"),
    ("11-20 דקות", "Late11To20Minutes"),
    ("מעל 20 דקות", "LateOver20Minutes"),
    ("לא בוצע", "UnPerformed")]

  /** `total += row[field]` over the rows, starting from 0. */
  function SumField(rows: seq<Record>, field: string): JsValue {
    if |rows| == 0 then Zero else Plus(SumField(rows[..|rows| - 1], field), Get(rows[|rows| - 1], field))
  }

  /** Every row carries an integer under `field`. */
  predicate AllCounts(rows: seq<Record>, field: string) {
    forall i :: 0 <= i < |rows| ==> Get(rows[i], field).Num? && Get(rows[i], field).n.Int?
  }

  /** The arithmetic total of `field`, summed from the first row on. */
  function IntTotal(rows: seq<Record>, field: string): int
    requires AllCounts(rows, field)
  {
    if |rows| == 0 then 0 else Get(rows[0], field).n.i + IntTotal(rows[1..], field)
  }

  lemma {:induction false} IntTotalSnoc(rows: seq<Record>, field: string)
    requires |rows| > 0 && AllCounts(rows, field)
    ensures IntTotal(rows, field) == IntTotal(rows[..|rows| - 1], field) + Get(rows[|rows| - 1], field).n.i
  {
    if |rows| > 1 {
      IntTotalSnoc(rows[1..], field);
      assert rows[1..][..|rows| - 2] == rows[..|rows| - 1][1..];
    }
  }

  /** When every row carries an integer, the running `+=` is the sum. */
  lemma {:induction false} SumFieldOfCounts(rows: seq<Record>, field: string)
    requires AllCounts(rows, field)
    ensures SumField(rows, field) == Num(Int(IntTotal(rows, field)))
  {
    if |rows| > 0 {
      SumFieldOfCounts(rows[..|rows| - 1], field);
      IntTotalSnoc(rows, field);
    }
  }

  /** A row without the field makes the total NaN (`0 + undefined`), even
      when every other row carries a number. */
  lemma {:induction false} SumFieldWithMissing(rows: seq<Record>, field: string)
    requires forall i :: 0 <= i < |rows| ==> Get(rows[i], field).Num? || Get(rows[i], field) == Undefined
    ensures SumField(rows, field).Num?
    ensures (exists i :: 0 <= i < |rows| && Get(rows[i], field) == Undefined) ==> SumField(rows, field) == Num(NaN)
  {
    if |rows| > 0 {
      var p := rows[..|rows| - 1];
      SumFieldWithMissing(p, field);
      if exists i :: 0 <= i < |rows| && Get(rows[i], field) == Undefined {
        var i :| 0 <= i < |rows| && Get(rows[i], field) == Undefined;
        if i < |p| {
          assert Get(p[i], field) == Undefined;
        }
      }
    }
  }

  /** "איחורים / הקדמות לתקופה": per category, the total over all rows. */
  function DelaySummaryChart(rows: seq<Record>): (c: Chart)
    ensures c.title == DelaySummaryTitle && |c.data| == |DelayCategories| + 1
    ensures forall i :: 0 <= i < |DelayCategories| ==>
      |c.data[i + 1]| == 2 && c.data[i + 1][0] == Str(DelayCategories[i].0)
      && (AllCounts(rows, DelayCategories[i].1) ==> c.data[i + 1][1] == Num(Int(IntTotal(rows, DelayCategories[i].1))))
  {
    assert forall i :: 0 <= i < |DelayCategories| && AllCounts(rows, DelayCategories[i].1) ==>
        SumField(rows, DelayCategories[i].1) == Num(Int(IntTotal(rows, DelayCategories[i].1))) by {
      forall i | 0 <= i < |DelayCategories| && AllCounts(rows, DelayCategories[i].1)
        ensures SumField(rows, DelayCategories[i].1) == Num(Int(IntTotal(rows, DelayCategories[i].1)))
      {
        SumFieldOfCounts(rows, DelayCategories[i].1);
      }
    }
    Chart(DelaySummaryTitle, Area, false,
      [[Str("קטגוריה"), Str("ערך")]]
      + seq(|DelayCategories|, i requires 0 <= i < |DelayCategories| =>
          [Str(DelayCategories[i].0), SumField(rows, DelayCategories[i].1)]))
  }

  // ---------------------------------------------------------------------
  // The whole transformation

  /** The endpoint answered with at least one row. */
  predicate NonEmpty(d: Dataset) {
    d.Some? && |d.value| > 0
  }

  function RowsOf(d: Dataset): seq<Record> {
    d.GetOr([])
  }

  /** The position of each chart in the page's fixed order. */
  function Rank(title: string): nat {
    if title == PlanVsPerformanceTitle then 0
    else if title == PerformancePercentageTitle then 1
    else if title == PlannedChangesTitle then 2
    else if title == PlannedTripsTitle then 3
    else if title == HourlyDelaysTitle then 4
    else if title == DelaySummaryTitle then 5
    else 6
  }

  /** The six titles take the six ranks in order. */
  lemma TitleRanks()
    ensures Rank(PlanVsPerformanceTitle) == 0 && Rank(PerformancePercentageTitle) == 1
    ensures Rank(PlannedChangesTitle) == 2 && Rank(PlannedTripsTitle) == 3
    ensures Rank(HourlyDelaysTitle) == 4 && Rank(DelaySummaryTitle) == 5
  {
  }

  ghost predicate InCanonicalOrder(charts: seq<Chart>) {
    forall i, j :: 0 <= i < j < |charts| ==> Rank(charts[i].title) < Rank(charts[j].title)
  }

  ghost predicate HasChart(charts: seq<Chart>, title: string) {
    exists i :: 0 <= i < |charts| && charts[i].title == title
  }

  /** Every chart present is the one built from its own answer. */
  ghost predicate BuiltFrom(charts: seq<Chart>, src: ChartSources, hourly: bool) {
    forall c :: c in charts ==>
      (c.title == PlanVsPerformanceTitle ==> c == PlanVsPerformanceChart(RowsOf(src.planVsPerformance), hourly))
      && (c.title == PerformancePercentageTitle ==> c == PerformancePercentageChart(RowsOf(src.performancePercentage), hourly))
      && (c.title == PlannedChangesTitle ==> c == PlannedChangesChart(RowsOf(src.plannedChanges), hourly))
      && (c.title == PlannedTripsTitle ==> c == PlannedTripsChart(RowsOf(src.plannedTrips), hourly))
      && (c.title == HourlyDelaysTitle ==> c == HourlyDelaysChart(RowsOf(src.tripsPerformance)))
      && (c.title == DelaySummaryTitle ==> c == DelaySummaryChart(RowsOf(src.tripsPerformance)))
  }

  function Push(acc: seq<Chart>, present: bool, chart: Chart): seq<Chart> {
    if present then acc + [chart] else acc
  }

  /** Appending a chart of a later rank keeps the charts in order. */
  lemma {:induction false} PushChart(acc: seq<Chart>, present: bool, chart: Chart)
    requires InCanonicalOrder(acc)
    requires forall i :: 0 <= i < |acc| ==> Rank(acc[i].title) < Rank(chart.title)
    requires forall i :: 0 <= i < |acc| ==> |acc[i].data| >= 2
    requires present ==> |chart.data| >= 2
    ensures InCanonicalOrder(Push(acc, present, chart))
    ensures forall i :: 0 <= i < |Push(acc, present, chart)| ==> |Push(acc, present, chart)[i].data| >= 2
    ensures forall i :: 0 <= i < |Push(acc, present, chart)| ==> Rank(Push(acc, present, chart)[i].title) <= Rank(chart.title)
  {
  }

  /** Charts all ranked at most `n` are ranked below anything above `n`. */
  lemma RankedBelow(acc: seq<Chart>, n: nat, m: nat)
    requires forall i :: 0 <= i < |acc| ==> Rank(acc[i].title) <= n
    requires n < m
    ensures forall i :: 0 <= i < |acc| ==> Rank(acc[i].title) < m
  {
  }

  /** A chart is among the pushed ones when it was there or is the one
      pushed. */
  lemma {:induction false} PushHas(acc: seq<Chart>, present: bool, chart: Chart, t: string)
    ensures HasChart(Push(acc, present, chart), t) <==> HasChart(acc, t) || (present && t == chart.title)
  {
    var r := Push(acc, present, chart);
    if HasChart(acc, t) {
      var i :| 0 <= i < |acc| && acc[i].title == t;
      assert r[i] == acc[i];
    }
    if present && t == chart.title {
      assert r[|acc|] == chart;
    }
  }

  /** The six charts pushed in turn, each when its flag is set. */
  function PushSix(p: (bool, bool, bool, bool, bool, bool), ch: (Chart, Chart, Chart, Chart, Chart, Chart)): seq<Chart> {
    Push(Push(Push(Push(Push(Push([], p.0, ch.0), p.1, ch.1), p.2, ch.2), p.3, ch.3), p.4, ch.4), p.5, ch.5)
  }

  /** Charts in the fixed order, each with a data row, all ranked below
      `bound`. */
  ghost predicate OrderedBelow(acc: seq<Chart>, bound: nat) {
    InCanonicalOrder(acc)
    && (forall i :: 0 <= i < |acc| ==> |acc[i].data| >= 2)
    && (forall i :: 0 <= i < |acc| ==> Rank(acc[i].title) < bound)
  }

  /** Three charts of increasing rank pushed in turn. */
  lemma {:induction false} PushThree(acc: seq<Chart>, p: (bool, bool, bool), ch: (Chart, Chart, Chart))
    requires OrderedBelow(acc, Rank(ch.0.title))
    requires Rank(ch.0.title) < Rank(ch.1.title) < Rank(ch.2.title)
    requires (p.0 ==> |ch.0.data| >= 2) && (p.1 ==> |ch.1.data| >= 2) && (p.2 ==> |ch.2.data| >= 2)
    ensures OrderedBelow(Push(Push(Push(acc, p.0, ch.0), p.1, ch.1), p.2, ch.2), Rank(ch.2.title) + 1)
  {
    var c1 := Push(acc, p.0, ch.0);
    var c2 := Push(c1, p.1, ch.1);
    PushChart(acc, p.0, ch.0);
    RankedBelow(c1, Rank(ch.0.title), Rank(ch.1.title));
    PushChart(c1, p.1, ch.1);
    RankedBelow(c2, Rank(ch.1.title), Rank(ch.2.title));
    PushChart(c2, p.2, ch.2);
    RankedBelow(Push(c2, p.2, ch.2), Rank(ch.2.title), Rank(ch.2.title) + 1);
  }

  /** Charts of increasing rank, pushed in turn, come out in the fixed order
      and each with a data row. */
  lemma {:induction false} PushSixOrder(p: (bool, bool, bool, bool, bool, bool), ch: (Chart, Chart, Chart, Chart, Chart, Chart))
    requires Rank(ch.0.title) < Rank(ch.1.title) < Rank(ch.2.title) < Rank(ch.3.title) < Rank(ch.4.title) < Rank(ch.5.title)
    requires (p.0 ==> |ch.0.data| >= 2) && (p.1 ==> |ch.1.data| >= 2) && (p.2 ==> |ch.2.data| >= 2)
    requires (p.3 ==> |ch.3.data| >= 2) && (p.4 ==> |ch.4.data| >= 2) && (p.5 ==> |ch.5.data| >= 2)
    ensures InCanonicalOrder(PushSix(p, ch))
    ensures forall i :: 0 <= i < |PushSix(p, ch)| ==> |PushSix(p, ch)[i].data| >= 2
  {
    PushThree([], (p.0, p.1, p.2), (ch.0, ch.1, ch.2));
    var c3 := Push(Push(Push([], p.0, ch.0), p.1, ch.1), p.2, ch.2);
    RankedBelow(c3, Rank(ch.2.title), Rank(ch.3.title));
    PushThree(c3, (p.3, p.4, p.5), (ch.3, ch.4, ch.5));
  }

  /** A title is among the six pushed charts exactly when one of them that
      was pushed carries it. */
  lemma {:induction false} PushSixHas(p: (bool, bool, bool, bool, bool, bool), ch: (Chart, Chart, Chart, Chart, Chart, Chart), t: string)
    ensures HasChart(PushSix(p, ch), t) <==>
      (p.0 && t == ch.0.title) || (p.1 && t == ch.1.title) || (p.2 && t == ch.2.title)
      || (p.3 && t == ch.3.title) || (p.4 && t == ch.4.title) || (p.5 && t == ch.5.title)
  {
    var c1 := Push([], p.0, ch.0);
    var c2 := Push(c1, p.1, ch.1);
    var c3 := Push(c2, p.2, ch.2);
    var c4 := Push(c3, p.3, ch.3);
    var c5 := Push(c4, p.4, ch.4);
    PushHas([], p.0, ch.0, t);
    PushHas(c1, p.1, ch.1, t);
    PushHas(c2, p.2, ch.2, t);
    PushHas(c3, p.3, ch.3, t);
    PushHas(c4, p.4, ch.4, t);
    PushHas(c5, p.5, ch.5, t);
  }

  /** Charts of distinct ranks: each is among the pushed ones exactly when
      its flag is set. */
  lemma PushSixTitles(p: (bool, bool, bool, bool, bool, bool), ch: (Chart, Chart, Chart, Chart, Chart, Chart))
    requires Rank(ch.0.title) < Rank(ch.1.title) < Rank(ch.2.title) < Rank(ch.3.title) < Rank(ch.4.title) < Rank(ch.5.title)
    ensures HasChart(PushSix(p, ch), ch.0.title) <==> p.0
    ensures HasChart(PushSix(p, ch), ch.1.title) <==> p.1
    ensures HasChart(PushSix(p, ch), ch.2.title) <==> p.2
    ensures HasChart(PushSix(p, ch), ch.3.title) <==> p.3
    ensures HasChart(PushSix(p, ch), ch.4.title) <==> p.4
    ensures HasChart(PushSix(p, ch), ch.5.title) <==> p.5
  {
    PushSixHas(p, ch, ch.0.title);
    PushSixHas(p, ch, ch.1.title);
    PushSixHas(p, ch, ch.2.title);
    PushSixHas(p, ch, ch.3.title);
    PushSixHas(p, ch, ch.4.title);
    PushSixHas(p, ch, ch.5.title);
  }

  /** Only the six charts given can come out of pushing them. */
  lemma PushSixMembers(p: (bool, bool, bool, bool, bool, bool), ch: (Chart, Chart, Chart, Chart, Chart, Chart))
    ensures forall c :: c in PushSix(p, ch) ==> c == ch.0 || c == ch.1 || c == ch.2 || c == ch.3 || c == ch.4 || c == ch.5
  {
    var c1 := Push([], p.0, ch.0);
    var c2 := Push(c1, p.1, ch.1);
    var c3 := Push(c2, p.2, ch.2);
    assert forall c :: c in c3 ==> c == ch.0 || c == ch.1 || c == ch.2;
    var c4 := Push(c3, p.3, ch.3);
    var c5 := Push(c4, p.4, ch.4);
    assert forall c :: c in c5 ==> c == ch.0 || c == ch.1 || c == ch.2 || c == ch.3 || c == ch.4;
  }

  /** Six charts of increasing rank, each pushed when its flag is set: they
      come out in the fixed order, each with a data row, and a chart is there
      exactly when its flag is set. */
  function BuildCharts(p: (bool, bool, bool, bool, bool, bool), ch: (Chart, Chart, Chart, Chart, Chart, Chart)): (r: seq<Chart>)
    requires Rank(ch.0.title) < Rank(ch.1.title) < Rank(ch.2.title) < Rank(ch.3.title) < Rank(ch.4.title) < Rank(ch.5.title)
    requires (p.0 ==> |ch.0.data| >= 2) && (p.1 ==> |ch.1.data| >= 2) && (p.2 ==> |ch.2.data| >= 2)
    requires (p.3 ==> |ch.3.data| >= 2) && (p.4 ==> |ch.4.data| >= 2) && (p.5 ==> |ch.5.data| >= 2)
    ensures InCanonicalOrder(r)
    ensures forall i :: 0 <= i < |r| ==> |r[i].data| >= 2
    ensures (HasChart(r, ch.0.title) <==> p.0) && (HasChart(r, ch.1.title) <==> p.1) && (HasChart(r, ch.2.title) <==> p.2)
    ensures (HasChart(r, ch.3.title) <==> p.3) && (HasChart(r, ch.4.title) <==> p.4) && (HasChart(r, ch.5.title) <==> p.5)
  {
    PushSixOrder(p, ch);
    PushSixTitles(p, ch);
    PushSix(p, ch)
  }

  /** The six charts, built whether or not their answers have rows, in the
      fixed order. */
  function SixCharts(src: ChartSources, hourly: bool): (ch: (Chart, Chart, Chart, Chart, Chart, Chart))
    ensures ch.0.title == PlanVsPerformanceTitle && ch.1.title == PerformancePercentageTitle
    ensures ch.2.title == PlannedChangesTitle && ch.3.title == PlannedTripsTitle
    ensures ch.4.title == HourlyDelaysTitle && ch.5.title == DelaySummaryTitle
    ensures Rank(ch.0.title) < Rank(ch.1.title) < Rank(ch.2.title) < Rank(ch.3.title) < Rank(ch.4.title) < Rank(ch.5.title)
    ensures (NonEmpty(src.planVsPerformance) ==> |ch.0.data| >= 2) && (NonEmpty(src.performancePercentage) ==> |ch.1.data| >= 2)
    ensures (NonEmpty(src.plannedChanges) ==> |ch.2.data| >= 2) && (NonEmpty(src.plannedTrips) ==> |ch.3.data| >= 2)
    ensures (NonEmpty(src.tripsPerformance) ==> |ch.4.data| >= 2 && |ch.5.data| >= 2)
  {
    TitleRanks();
    var trips := RowsOf(src.tripsPerformance);
    (PlanVsPerformanceChart(RowsOf(src.planVsPerformance), hourly),
     PerformancePercentageChart(RowsOf(src.performancePercentage), hourly),
     PlannedChangesChart(RowsOf(src.plannedChanges), hourly),
     PlannedTripsChart(RowsOf(src.plannedTrips), hourly),
     HourlyDelaysChart(trips),
     DelaySummaryChart(trips))
  }

  /** The six charts are built from their own answers, so any selection of
      them is too. */
  lemma SixChartsBuilt(src: ChartSources, hourly: bool, p: (bool, bool, bool, bool, bool, bool))
    ensures BuiltFrom(PushSix(p, SixCharts(src, hourly)), src, hourly)
  {
    TitleRanks();
    PushSixMembers(p, SixCharts(src, hourly));
  }

  /** `transformDataToCharts`: the charts of the answers that have rows, in
      the fixed order; the hourly chart only in the hourly view, where a row
      without a string period makes the whole transformation throw. The
      line-performance answer is requested but never used. */
  function TransformDataToCharts(src: ChartSources, hourly: bool): (r: Transformed)
    ensures r.Threw? <==> hourly && NonEmpty(src.tripsPerformance) && SortThrows(RowsOf(src.tripsPerformance))
    ensures r.Charts? ==> InCanonicalOrder(r.charts)
    ensures r.Charts? ==> forall i :: 0 <= i < |r.charts| ==> |r.charts[i].data| >= 2
    ensures r.Charts? ==>
      (HasChart(r.charts, PlanVsPerformanceTitle) <==> NonEmpty(src.planVsPerformance))
      && (HasChart(r.charts, PerformancePercentageTitle) <==> NonEmpty(src.performancePercentage))
      && (HasChart(r.charts, PlannedChangesTitle) <==> NonEmpty(src.plannedChanges))
      && (HasChart(r.charts, PlannedTripsTitle) <==> NonEmpty(src.plannedTrips))
      && (HasChart(r.charts, HourlyDelaysTitle) <==> hourly && NonEmpty(src.tripsPerformance))
      && (HasChart(r.charts, DelaySummaryTitle) <==> NonEmpty(src.tripsPerformance))
    ensures r.Charts? ==> BuiltFrom(r.charts, src, hourly)
  {
    if hourly && NonEmpty(src.tripsPerformance) && SortThrows(RowsOf(src.tripsPerformance)) then Threw
    else
      var p := (NonEmpty(src.planVsPerformance), NonEmpty(src.performancePercentage), NonEmpty(src.plannedChanges),
                NonEmpty(src.plannedTrips), hourly && NonEmpty(src.tripsPerformance), NonEmpty(src.tripsPerformance));
      var charts := BuildCharts(p, SixCharts(src, hourly));
      assert BuiltFrom(charts, src, hourly) by {
        SixChartsBuilt(src, hourly, p);
      }
      Charts(charts)
  }
}
