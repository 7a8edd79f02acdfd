/** The dashboard page itself (`Charts` in charts.jsx): when it asks the
    reporting service for charts, what it keeps of the answer, and which
    charts it shows in which order, given the order and the hidden list the
    user saved. */
module ChartsPage {
  import opened Base
  import opened JsValues
  import opened StableSort
  import opened ChartData

  /** The sample chart the page shows while it has no chart of its own. */
  const DefaultCharts: seq<Chart> := [
    Chart(PlanVsPerformanceTitle, Line, true, [
      [Str(MonthLabel), Str("בוצע"), Str("מתוכנן")],
      [Str("ינו"), Num(Int(100)), Num(Int(90))],
      [Str("פברואר"), Num(Int(160)), Num(Int(120))],
      [Str("מרץ"), Num(Int(120)), Num(Int(110))],
      [Str("אפריל"), Num(Int(110)), Num(Int(100))],
      [Str("מאי"), Num(Int(130)), Num(Int(120))],
      [Str("יוני"), Num(Int(140)), Num(Int(130))]])]

  /** `chartsToDisplay`: the page never shows an empty list; without charts
      of its own it falls back to the sample. */
  function ChartsToDisplay(chartsData: seq<Chart>): (r: seq<Chart>)
    ensures |r| > 0
    ensures |chartsData| > 0 ==> r == chartsData
    ensures |chartsData| == 0 ==> r == DefaultCharts
  {
    if |chartsData| > 0 then chartsData else DefaultCharts
  }

  // ---------------------------------------------------------------------
  // Loading

  /** Where each field of a chart request comes from in the selection. */
  const ChartApiFields: map<string, string> := map[
    "startDate" := "StartDate", "endDate" := "EndDate", "groupBy" := "GroupBy",
    "City" := "City", "AgencyId" := "Agency", "ClusterId" := "Cluster",
    "SubCluster" := "SubCluster", "LineType" := "LineType", "LineId" := "RouteNumber",
    "linegroup" := "linegroup"]

  /** The filters a chart load sends, or None when a date is missing and the
      load is skipped. Every field is sent, unset ones as undefined. */
  function ChartRequest(selected: map<string, JsValue>): (r: Option<map<string, JsValue>>)
    ensures r.None? <==> !Truthy(Field(selected, "StartDate")) || !Truthy(Field(selected, "EndDate"))
    ensures r.Some? ==> r.value.Keys == ChartApiFields.Keys
    ensures r.Some? ==> forall k :: k in ChartApiFields ==> r.value[k] == Field(selected, ChartApiFields[k])
  {
    if !Truthy(Field(selected, "StartDate")) || !Truthy(Field(selected, "EndDate")) then None
    else Some(map k | k in ChartApiFields :: Field(selected, ChartApiFields[k]))
  }

  /** What the page keeps: the charts last built, whether a load is under
      way, the error of a failed load, and the user's saved order (title to
      position) and hidden titles. */
  datatype PageState = PageState(
    chartsData: seq<Chart>,
    isLoading: bool,
    error: Option<string>,
    chartsOrder: map<string, int>,
    hiddenCharts: seq<string>)

  const InitialPage := PageState([], true, None, map[], [])

  /** The message shown when a failed load carries none of its own. */
  const LoadErrorText := "Ошибка при загрузке данных"

  /** The start of a load after the selection changed: with both dates set
      the page enters its loading state and sends the request; otherwise it
      leaves the loading state and keeps what it shows. */
  function BeginChartLoad(page: PageState, selected: map<string, JsValue>): (r: (PageState, Option<map<string, JsValue>>))
    ensures r.1 == ChartRequest(selected)
    ensures r.0.isLoading <==> r.1.Some?
    ensures r.0.chartsData == page.chartsData && r.0.error == page.error
    ensures r.0.chartsOrder == page.chartsOrder && r.0.hiddenCharts == page.hiddenCharts
  {
    var request := ChartRequest(selected);
    (page.(isLoading := request.Some?), request)
  }

  /** The end of a load, once the six requests have settled: the charts
      built replace the old ones; if building them throws, the error message
      (`message` is the exception's) is kept instead. An error is never
      cleared by a later load. */
  function FinishChartLoad(page: PageState, src: ChartSources, hourly: bool, message: string): (r: PageState)
    ensures !r.isLoading
    ensures page.error.Some? ==> r.error.Some?
    ensures r.error.Some? ==> r.error.value != "" || page.error == r.error
    ensures TransformDataToCharts(src, hourly).Charts? ==>
      r.chartsData == TransformDataToCharts(src, hourly).charts && r.error == page.error
    ensures TransformDataToCharts(src, hourly).Threw? ==> r.chartsData == page.chartsData && r.error.Some?
    ensures r.chartsOrder == page.chartsOrder && r.hiddenCharts == page.hiddenCharts
  {
    match TransformDataToCharts(src, hourly)
    case Charts(charts) => page.(chartsData := charts, isLoading := false)
    case Threw => page.(error := Some(if message != "" then message else LoadErrorText), isLoading := false)
  }

  // ---------------------------------------------------------------------
  // Order and visibility

  /** The sort key of a chart: its saved position, or `Infinity` when the
      user never placed it. */
  function RankKey(order: map<string, int>, title: string): (k: SortKey)
    ensures Comparable(k)
  {
    if title in order then Finite(order[title]) else Infinity
  }

  function ChartRank(order: map<string, int>): Chart -> SortKey {
    (c: Chart) => RankKey(order, c.title)
  }

  /** The charts whose title is not hidden, in their order. */
  function NotHidden(charts: seq<Chart>, hidden: seq<string>): (r: seq<Chart>)
    ensures forall c :: c in r <==> c in charts && c.title !in hidden
    ensures |r| <= |charts|
  {
    if |charts| == 0 then []
    else
      var last := charts[|charts| - 1];
      NotHidden(charts[..|charts| - 1], hidden) + (if last.title in hidden then [] else [last])
  }

  /** `sortedAndFilteredCharts`: the charts not hidden, placed charts by
      their saved position and then the unplaced ones; charts of equal rank,
      the unplaced ones among them, keep their order. */
  function VisibleCharts(charts: seq<Chart>, order: map<string, int>, hidden: seq<string>): (r: seq<Chart>)
    ensures forall i :: 0 <= i < |r| ==> r[i].title !in hidden
    ensures forall c :: c in r <==> c in charts && c.title !in hidden
    ensures multiset(r) == multiset(NotHidden(charts, hidden))
    ensures Sorted(r, ChartRank(order))
    ensures forall k :: WithKey(r, ChartRank(order), k) == WithKey(NotHidden(charts, hidden), ChartRank(order), k)
  {
    var shown := NotHidden(charts, hidden);
    SortPermutes(shown, ChartRank(order));
    assert AllComparable(shown, ChartRank(order)) by {
      forall i | 0 <= i < |shown|
        ensures Comparable(ChartRank(order)(shown[i]))
      {
        var _ := RankKey(order, shown[i].title);
      }
    }
    SortSorted(shown, ChartRank(order));
    assert forall k :: WithKey(SortBy(shown, ChartRank(order)), ChartRank(order), k) == WithKey(shown, ChartRank(order), k) by {
      forall k
        ensures WithKey(SortBy(shown, ChartRank(order)), ChartRank(order), k) == WithKey(shown, ChartRank(order), k)
      {
        SortStable(shown, ChartRank(order), k);
      }
    }
    var r := SortBy(shown, ChartRank(order));
    assert forall c :: c in r <==> c in shown by {
      forall c
        ensures c in r <==> c in shown
      {
        assert c in r <==> c in multiset(r);
        assert c in shown <==> c in multiset(shown);
      }
    }
    r
  }

  /** A chart placed by the user comes before every chart that was not. */
  lemma PlacedBeforeUnplaced(charts: seq<Chart>, order: map<string, int>, hidden: seq<string>, i: nat, j: nat)
    requires var r := VisibleCharts(charts, order, hidden);
      i < |r| && j < |r| && r[i].title in order && r[j].title !in order
    ensures i < j
  {
    var r := VisibleCharts(charts, order, hidden);
    assert After(ChartRank(order)(r[j]), ChartRank(order)(r[i]));
  }

  /** What the page renders. */
  datatype Screen = LoadingScreen | ErrorScreen(message: string) | ChartsScreen(charts: seq<Chart>)

  /** The loading text while a load is under way, then the error if any,
      otherwise the visible charts. */
  function Render(page: PageState): (s: Screen)
    ensures s.LoadingScreen? <==> page.isLoading
    ensures s.ErrorScreen? <==> !page.isLoading && page.error.Some?
    ensures s.ChartsScreen? ==> forall i :: 0 <= i < |s.charts| ==> s.charts[i].title !in page.hiddenCharts
    ensures s.ChartsScreen? ==> forall c :: c in s.charts <==> c in ChartsToDisplay(page.chartsData) && c.title !in page.hiddenCharts
  {
    if page.isLoading then LoadingScreen
    else if page.error.Some? then ErrorScreen(page.error.value)
    else ChartsScreen(VisibleCharts(ChartsToDisplay(page.chartsData), page.chartsOrder, page.hiddenCharts))
  }

  // ---------------------------------------------------------------------
  // Saved preferences

  /** A preference as read back from browser storage: absent (or empty),
      unreadable JSON, or a parsed value. */
  datatype Stored<T> = Missing | Corrupt | Parsed(value: T)

  datatype SavedPreferences = SavedPreferences(order: Stored<map<string, int>>, hidden: Stored<seq<string>>)

  /** On mount the page takes each saved preference that parses and keeps
      its default for the others. */
  function LoadPreferences(page: PageState, saved: SavedPreferences): (r: PageState)
    ensures r.chartsOrder == (if saved.order.Parsed? then saved.order.value else page.chartsOrder)
    ensures r.hiddenCharts == (if saved.hidden.Parsed? then saved.hidden.value else page.hiddenCharts)
    ensures r.chartsData == page.chartsData && r.isLoading == page.isLoading && r.error == page.error
  {
    page.(chartsOrder := if saved.order.Parsed? then saved.order.value else page.chartsOrder,
          hiddenCharts := if saved.hidden.Parsed? then saved.hidden.value else page.hiddenCharts)
  }

  /** `handleOrderChange`: the new order is used and stored. */
  function ChangeOrder(page: PageState, saved: SavedPreferences, order: map<string, int>): (r: (PageState, SavedPreferences))
    ensures r.0 == page.(chartsOrder := order) && r.1 == saved.(order := Parsed(order))
  {
    (page.(chartsOrder := order), saved.(order := Parsed(order)))
  }

  /** `handleVisibilityChange`: the new hidden list is used and stored. */
  function ChangeVisibility(page: PageState, saved: SavedPreferences, hidden: seq<string>): (r: (PageState, SavedPreferences))
    ensures r.0 == page.(hiddenCharts := hidden) && r.1 == saved.(hidden := Parsed(hidden))
  {
    (page.(hiddenCharts := hidden), saved.(hidden := Parsed(hidden)))
  }

  /** What the user saves is what a later visit starts with. */
  lemma PreferencesSurviveReload(page: PageState, saved: SavedPreferences, order: map<string, int>, hidden: seq<string>)
    ensures var (p1, s1) := ChangeOrder(page, saved, order);
      var (p2, s2) := ChangeVisibility(p1, s1, hidden);
      var reloaded := LoadPreferences(InitialPage, s2);
      reloaded.chartsOrder == p2.chartsOrder == order && reloaded.hiddenCharts == p2.hiddenCharts == hidden
  {
  }
}
