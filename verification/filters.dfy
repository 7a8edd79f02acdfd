/** The filter provider (filters-context.jsx): the user's current selection,
    the option lists fetched per filter type, the per-type loading flags and
    the shared error, with the handlers that change them. */
module Filters {
  import opened Base
  import opened Strings
  import opened JsValues

  /** The provider's state.

      `options` caches the option list of each filter type (a key removed by
      the Agency cascade is an evicted entry); `emptyFlags` holds the types
      flagged `<type>_empty` after the service said the user has none;
      `loading` holds `isLoading`. */
  datatype FiltersState = FiltersState(
    selected: map<string, JsValue>,
    options: map<string, seq<Record>>,
    emptyFlags: set<string>,
    loading: map<string, bool>,
    error: Option<string>)

  /** The selections the menu offers, in menu order. */
  const SelectionKeys: seq<string> := ["Agency", "Cluster", "SubCluster", "City", "RouteNumber", "LineType", "linegroup"]

  /** Every selection empty and the two dates taken from the clock. */
  function InitialFilters(startDate: string, endDate: string): (s: FiltersState)
    ensures forall k :: k in SelectionKeys ==> k in s.selected && s.selected[k] == Str("")
    ensures Field(s.selected, "StartDate") == Str(startDate) && Field(s.selected, "EndDate") == Str(endDate)
    ensures "GroupBy" !in s.selected
    ensures s.options == map[] && s.emptyFlags == {} && s.loading == map[] && s.error == None
  {
    FiltersState(
      map["Agency" := Str(""), "Cluster" := Str(""), "SubCluster" := Str(""), "City" := Str(""),
          "RouteNumber" := Str(""), "LineType" := Str(""), "linegroup" := Str(""),
          "StartDate" := Str(startDate), "EndDate" := Str(endDate)],
      map[], {}, map[], None)
  }

  // ---------------------------------------------------------------------
  // Changing a selection

  /** The selections held as numbers. */
  const NumericFields: set<string> := {"Agency", "Cluster", "linegroup"}

  /** The value stored for `id`: `Number(value)` in a numeric field unless
      the value is the empty string, the value itself otherwise. */
  function Coerce(id: string, value: JsValue): (v: JsValue)
    ensures id in NumericFields && value != Str("") ==> v.Num? && v.n == ToNumber(value)
    ensures id !in NumericFields || value == Str("") ==> v == value
  {
    if id in NumericFields && value != Str("") then Num(ToNumber(value)) else value
  }

  /** A numeric field stores the number an option's decimal id denotes;
      other fields store the string. */
  lemma CoerceDecimal(id: string, n: int)
    ensures Coerce(id, Str(IntToString(n))) == if id in NumericFields then Num(Int(n)) else Str(IntToString(n))
  {
    NumberOfString(n);
  }

  /** How `handleFilterChange` was called: with an id and a value, or with
      an event (`None` when the argument has no target). */
  datatype ChangeCall = Direct(id: string, value: JsValue) | FromEvent(target: Option<(string, JsValue)>)

  /** The id and value a call carries, or None when the handler gives up.
      A direct call with an undefined value is read as an event and has no
      target. */
  function ChangeTarget(call: ChangeCall): (t: Option<(string, JsValue)>)
    ensures call.Direct? ==> (t.None? <==> call.value == Undefined)
    ensures call.FromEvent? ==> t == call.target
  {
    match call
    case Direct(id, value) => if value == Undefined then None else Some((id, value))
    case FromEvent(target) => target
  }

  /** The selections an Agency change clears. */
  const AgencyDependents: set<string> := {"Cluster", "SubCluster", "City", "RouteNumber", "linegroup"}

  /** The option cache entry of a selection: a city list is cached under
      "Cities" and a route list under "LineID". */
  function CacheKeyOf(filterKey: string): string {
    if filterKey == "RouteNumber" then "LineID" else if filterKey == "City" then "Cities" else filterKey
  }

  /** The option lists an Agency change evicts. */
  const EvictedOnAgency: set<string> := set k | k in AgencyDependents :: CacheKeyOf(k)

  /** `handleFilterChange`: stores the coerced value; choosing an agency also
      empties the selections below it and evicts their cached option lists.
      Loading flags, the empty-list flags and the error are untouched. */
  function ChangeFilter(s: FiltersState, call: ChangeCall): (r: FiltersState)
    ensures ChangeTarget(call).None? ==> r == s
    ensures r.emptyFlags == s.emptyFlags && r.loading == s.loading && r.error == s.error
    ensures ChangeTarget(call).Some? ==> ChangedAs(s, r, ChangeTarget(call).value.0, ChangeTarget(call).value.1)
  {
    match ChangeTarget(call)
    case None => s
    case Some((id, value)) =>
      var stored := s.selected[id := Coerce(id, value)];
      if id == "Agency" then
        var cleared := map k | k in stored.Keys + AgencyDependents :: if k in AgencyDependents then Str("") else stored[k];
        s.(selected := cleared, options := map k | k in s.options && k !in EvictedOnAgency :: s.options[k])
      else s.(selected := stored)
  }

  /** What a change of `id` to `value` does to the selection and the cache. */
  ghost predicate ChangedAs(s: FiltersState, r: FiltersState, id: string, value: JsValue) {
    var cascade := id == "Agency";
    && r.selected.Keys == s.selected.Keys + {id} + (if cascade then AgencyDependents else {})
    && r.selected[id] == Coerce(id, value)
    && (forall k :: k in s.selected && k != id && !(cascade && k in AgencyDependents) ==> r.selected[k] == s.selected[k])
    && (cascade ==> forall k :: k in AgencyDependents ==> r.selected[k] == Str(""))
    && (forall k :: k in r.options <==> k in s.options && !(cascade && k in EvictedOnAgency))
    && (forall k :: k in r.options ==> r.options[k] == s.options[k])
  }

  /** Evicted lists are exactly the cluster, sub-cluster, city, route and
      line-group lists: the agency and line-type lists, and the line-group
      empty flag, survive. */
  lemma EvictedLists()
    ensures EvictedOnAgency == {"Cluster", "SubCluster", "Cities", "LineID", "linegroup"}
  {
    assert CacheKeyOf("City") == "Cities" && CacheKeyOf("RouteNumber") == "LineID";
    assert CacheKeyOf("Cluster") == "Cluster" && CacheKeyOf("SubCluster") == "SubCluster";
    assert CacheKeyOf("linegroup") == "linegroup";
    forall x | x in EvictedOnAgency
      ensures x in {"Cluster", "SubCluster", "Cities", "LineID", "linegroup"}
    {
      var k :| k in AgencyDependents && CacheKeyOf(k) == x;
    }
  }

  /** Making the same change twice is making it once. */
  lemma ChangeTwice(s: FiltersState, call: ChangeCall)
    ensures ChangeFilter(ChangeFilter(s, call), call) == ChangeFilter(s, call)
  {
    var once := ChangeFilter(s, call);
    var twice := ChangeFilter(once, call);
    if ChangeTarget(call).Some? {
      var (id, value) := ChangeTarget(call).value;
      assert Coerce(id, Coerce(id, value)) == Coerce(id, value);
      assert once.selected[id] == Coerce(id, value);
      assert once.selected[id := Coerce(id, value)] == once.selected;
      if id == "Agency" {
        AgencyChangeSettled(once, value);
      }
    }
  }

  /** Once the agency change is made, the cascade finds nothing left to
      clear or evict. */
  lemma AgencyChangeSettled(s: FiltersState, value: JsValue)
    requires "Agency" in s.selected && s.selected["Agency"] == Coerce("Agency", value)
    requires forall k :: k in AgencyDependents ==> k in s.selected && s.selected[k] == Str("")
    requires forall k :: k in s.options ==> k !in EvictedOnAgency
    ensures ChangeFilter(s, Direct("Agency", value)) == s || value == Undefined
  {
    if value != Undefined {
      var r := ChangeFilter(s, Direct("Agency", value));
      assert s.selected["Agency" := Coerce("Agency", value)] == s.selected;
      assert r.selected.Keys == s.selected.Keys;
      assert r.selected == s.selected;
      assert r.options == s.options;
    }
  }

  // ---------------------------------------------------------------------
  // Reset

  /** The keys a reset leaves: the selections and the two dates. */
  const ResetKeys: set<string> := set k | k in SelectionKeys + ["StartDate", "EndDate"]

  /** The dates are not among the selections. */
  lemma DatesAreNotSelections()
    ensures "StartDate" !in SelectionKeys && "EndDate" !in SelectionKeys
  {
  }

  /** `resetFilters`: every selection empty, the dates kept (undefined when
      there was none), the grouping dropped and the option cache emptied,
      the empty-list flags included. */
  function ResetFilters(s: FiltersState): (r: FiltersState)
    ensures r.selected.Keys == ResetKeys
    ensures forall k :: k in SelectionKeys ==> r.selected[k] == Str("")
    ensures r.selected["StartDate"] == Field(s.selected, "StartDate")
    ensures r.selected["EndDate"] == Field(s.selected, "EndDate")
    ensures r.options == map[] && r.emptyFlags == {}
    ensures r.loading == s.loading && r.error == s.error
  {
    DatesAreNotSelections();
    var start, end := Field(s.selected, "StartDate"), Field(s.selected, "EndDate");
    var selected := map k | k in ResetKeys :: if k == "StartDate" then start else if k == "EndDate" then end else Str("");
    s.(selected := selected, options := map[], emptyFlags := {})
  }

  /** A reset forgets every change but one of a date. */
  lemma ResetForgetsChange(s: FiltersState, call: ChangeCall)
    requires ChangeTarget(call).Some? ==> ChangeTarget(call).value.0 !in {"StartDate", "EndDate"}
    ensures ResetFilters(ChangeFilter(s, call)) == ResetFilters(s)
  {
    var c := ChangeFilter(s, call);
    assert Field(c.selected, "StartDate") == Field(s.selected, "StartDate");
    assert Field(c.selected, "EndDate") == Field(s.selected, "EndDate");
  }

  // ---------------------------------------------------------------------
  // Loading option lists

  /** The request field each selection is sent as. */
  const ApiFieldMapping: map<string, string> := map[
    "Agency" := "AgencyId", "Cluster" := "ClusterId", "SubCluster" := "SubCluster", "City" := "City",
    "RouteNumber" := "LineID", "LineType" := "LineType", "linegroup" := "linegroup"]

  /** `ApiFieldMapping` read backwards: the selection a request field comes from. */
  const ApiFieldSource: map<string, string> := map[
    "AgencyId" := "Agency", "ClusterId" := "Cluster", "SubCluster" := "SubCluster", "City" := "City",
    "LineID" := "RouteNumber", "LineType" := "LineType", "linegroup" := "linegroup"]

  /** The two tables are inverse to each other. */
  lemma ApiFieldsInverse()
    ensures forall k :: k in ApiFieldMapping ==> ApiFieldMapping[k] in ApiFieldSource && ApiFieldSource[ApiFieldMapping[k]] == k
    ensures forall f :: f in ApiFieldSource ==> ApiFieldSource[f] in ApiFieldMapping && ApiFieldMapping[ApiFieldSource[f]] == f
  {
  }

  /** The body `loadFilterOptions` sends (`reqData`): the user, the filter
      type, the selections under their request fields, and the dates. */
  datatype OptionsRequestBody = OptionsRequestBody(
    userId: JsValue,
    selectChoice: string,
    fields: map<string, JsValue>,
    startDate: Option<JsValue>,
    endDate: Option<JsValue>)

  /** The request for the option list of `filterType`: each truthy
      selection under its request field, and each truthy date. */
  function OptionsRequest(selected: map<string, JsValue>, userId: JsValue, filterType: string): (req: OptionsRequestBody)
    ensures req.userId == userId && req.selectChoice == filterType
    ensures forall k :: k in ApiFieldMapping ==> (ApiFieldMapping[k] in req.fields <==> Truthy(Field(selected, k)))
    ensures forall k :: k in ApiFieldMapping && Truthy(Field(selected, k)) ==> req.fields[ApiFieldMapping[k]] == selected[k]
    ensures forall f :: f in req.fields ==> f in ApiFieldSource
    ensures req.startDate.Some? <==> Truthy(Field(selected, "StartDate"))
    ensures req.endDate.Some? <==> Truthy(Field(selected, "EndDate"))
    ensures req.startDate.Some? ==> req.startDate.value == selected["StartDate"]
    ensures req.endDate.Some? ==> req.endDate.value == selected["EndDate"]
  {
    ApiFieldsInverse();
    var fields := map f | f in ApiFieldSource && Truthy(Field(selected, ApiFieldSource[f])) :: selected[ApiFieldSource[f]];
    var start := Field(selected, "StartDate");
    var end := Field(selected, "EndDate");
    OptionsRequestBody(userId, filterType, fields,
      if Truthy(start) then Some(start) else None,
      if Truthy(end) then Some(end) else None)
  }

  /** `loadFilterOptions` up to the request: nothing happens while the same
      type is loading; otherwise the type is marked loading, the error is
      cleared and the request is sent. */
  function BeginLoad(s: FiltersState, filterType: string, userId: JsValue): (r: (FiltersState, Option<OptionsRequestBody>))
    ensures IsLoading(s, filterType) ==> r == (s, None)
    ensures !IsLoading(s, filterType) ==>
      r.1 == Some(OptionsRequest(s.selected, userId, filterType)) && IsLoading(r.0, filterType) && r.0.error == None
    ensures forall t :: t != filterType ==> IsLoading(r.0, t) == IsLoading(s, t)
    ensures r.0.selected == s.selected && r.0.options == s.options && r.0.emptyFlags == s.emptyFlags
  {
    if IsLoading(s, filterType) then (s, None)
    else (s.(loading := s.loading[filterType := true], error := None), Some(OptionsRequest(s.selected, userId, filterType)))
  }

  /** `isLoading[filterType]`. */
  predicate IsLoading(s: FiltersState, filterType: string) {
    filterType in s.loading && s.loading[filterType]
  }

  /** The body of the service's answer: `ResData` (None when it is absent
      or falsy), `Status` and `Msg`. */
  datatype ResponseData = ResponseData(resData: Option<seq<Record>>, status: JsValue, msg: JsValue)

  /** The HTTP error response attached to a rejected request: its status and
      the `ErrMsg` of its body. */
  datatype ErrorResponse = ErrorResponse(status: int, errMsg: JsValue)

  /** How the request settled: an answer (whose body may be missing), or a
      rejection with its message and possibly an error response. */
  datatype Outcome = Responded(data: Option<ResponseData>) | Rejected(message: string, response: Option<ErrorResponse>)

  const SuccessMsg := "הפעולה הצליחה"
  const DefaultLoadError := "Ошибка загрузки данных"
  const DefaultFilterError := "Произошла ошибка при загрузке фильтров"
  const NoGroupsText := "אין למשתמש קבוצות קוים"
  const NoGroupsTextPlene := "אין למשתמש קבוצות קווים"

  /** What a load ends with: an option list to cache, the line-group "no
      groups" case, or an error message for the menu. */
  datatype LoadResult = Loaded(list: seq<Record>) | NoLineGroups | LoadFailed(message: string)

  /** The exception the handler catches, if any: the rejection, or the
      Error it throws itself for an answer it cannot use. */
  function Thrown(o: Outcome): (e: Option<(string, Option<ErrorResponse>)>)
    ensures o.Rejected? ==> e == Some((o.message, o.response))
    ensures e.Some? && o.Responded? ==> e.value.1.None? && e.value.0 != ""
  {
    match o
    case Rejected(message, response) => Some((message, response))
    case Responded(data) =>
      if data.Some? && data.value.resData.Some? then None
      else if data.Some? && data.value.status == Str("OK") && data.value.msg == Str(SuccessMsg) then None
      else
        var msg := if data.Some? then data.value.msg else Undefined;
        TruthyToStr(Or(msg, Str(DefaultLoadError)));
        Some((ToStr(Or(msg, Str(DefaultLoadError))), None))
  }

  lemma TruthyToStr(v: JsValue)
    requires Truthy(v)
    ensures ToStr(v) != ""
  {
    if v.Num? {
      assert |IntToString(v.n.i)| >= 1;
    }
  }

  /** Only the string itself renders as the success message. */
  lemma RendersAsSuccess(v: JsValue)
    ensures ToStr(v) == SuccessMsg ==> v == Str(SuccessMsg)
  {
    if v.Num? && v.n.Int? {
      var i := v.n.i;
      var m: nat := if i < 0 then -i else i;
      assert IsDigit(NatToString(m)[0]);
      assert IntToString(i)[0] == '-' || IntToString(i)[0] == NatToString(m)[0];
    }
  }

  /** Whether an error response says the user has no line groups. */
  predicate SaysNoGroups(r: ErrorResponse) {
    r.errMsg == Str(NoGroupsText) || r.errMsg == Str(NoGroupsTextPlene) || r.status == 406
  }

  /** The classification `loadFilterOptions` applies to a settled request. */
  function Classify(filterType: string, o: Outcome): (r: LoadResult)
    ensures o.Responded? && o.data.Some? && o.data.value.resData.Some? ==> r == Loaded(o.data.value.resData.value)
    ensures r.NoLineGroups? <==> filterType == "linegroup" && o.Rejected? && o.response.Some? && SaysNoGroups(o.response.value)
    ensures r.LoadFailed? ==> r.message != "" && r.message != SuccessMsg
    ensures o.Responded? && o.data.Some? && o.data.value.resData.None? && o.data.value.msg == Str(SuccessMsg) ==> r == Loaded([])
    ensures o.Responded? && (o.data.None? || (o.data.value.resData.None? && o.data.value.msg != Str(SuccessMsg))) ==>
      r == LoadFailed(ToStr(Or(if o.data.Some? then o.data.value.msg else Undefined, Str(DefaultLoadError))))
    ensures o.Rejected? && !(filterType == "linegroup" && o.response.Some? && SaysNoGroups(o.response.value)) ==>
      r == if o.message != SuccessMsg then LoadFailed(if o.message != "" then o.message else DefaultFilterError) else Loaded([])
  {
    match Thrown(o)
    case None => if o.data.value.resData.Some? then Loaded(o.data.value.resData.value) else Loaded([])
    case Some((message, response)) =>
      if filterType == "linegroup" && response.Some? && SaysNoGroups(response.value) then NoLineGroups
      else if message != SuccessMsg then LoadFailed(if message != "" then message else DefaultFilterError)
      else
        RendersAsSuccess(Or(if o.Responded? && o.data.Some? then o.data.value.msg else Undefined, Str(DefaultLoadError)));
        Loaded([])
  }

  /** `loadFilterOptions` once the request settled: the result is cached,
      the "no groups" case caches an empty list and raises the type's empty
      flag, a failure sets the error; the type stops loading in every case. */
  function FinishLoad(s: FiltersState, filterType: string, o: Outcome): (r: FiltersState)
    ensures !IsLoading(r, filterType)
    ensures forall t :: t != filterType ==> IsLoading(r, t) == IsLoading(s, t)
    ensures r.selected == s.selected
    ensures Classify(filterType, o).LoadFailed? ==> r.error == Some(Classify(filterType, o).message) && r.options == s.options
    ensures !Classify(filterType, o).LoadFailed? ==> filterType in r.options && r.error == s.error
    ensures Classify(filterType, o).Loaded? ==> r.options[filterType] == Classify(filterType, o).list
    ensures Classify(filterType, o).NoLineGroups? ==> r.options[filterType] == []
    ensures forall t :: t != filterType ==> (t in r.options <==> t in s.options)
    ensures forall t :: t != filterType && t in r.options ==> r.options[t] == s.options[t]
    ensures r.emptyFlags == s.emptyFlags + (if Classify(filterType, o).NoLineGroups? then {filterType} else {})
  {
    var done := s.(loading := s.loading[filterType := false]);
    match Classify(filterType, o)
    case Loaded(list) => done.(options := s.options[filterType := list])
    case NoLineGroups => done.(options := s.options[filterType := []], emptyFlags := s.emptyFlags + {filterType})
    case LoadFailed(message) => done.(error := Some(message))
  }

  /** `handleFilterFocus`: a type without a cached list is loaded. */
  function Focus(s: FiltersState, filterType: string, userId: JsValue): (r: (FiltersState, Option<OptionsRequestBody>))
    ensures filterType in s.options ==> r == (s, None)
    ensures filterType !in s.options ==> r == BeginLoad(s, filterType, userId)
  {
    if filterType in s.options then (s, None) else BeginLoad(s, filterType, userId)
  }

  /** While a type is loading, focusing it again sends nothing. */
  lemma NoDuplicateRequest(s: FiltersState, filterType: string, userId: JsValue)
    ensures (Focus(Focus(s, filterType, userId).0, filterType, userId)).1 == None
  {
  }

  /** After a load, the next focus of the same type loads again exactly when
      the load failed. */
  lemma RetryOnlyAfterFailure(s: FiltersState, filterType: string, userId: JsValue, o: Outcome)
    requires filterType !in s.options
    ensures var started := Focus(s, filterType, userId).0;
      var settled := FinishLoad(started, filterType, o);
      Focus(settled, filterType, userId).1.Some? <==> Classify(filterType, o).LoadFailed?
  {
  }
}
