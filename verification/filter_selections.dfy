/** The filter menu (filters-menu-selections.jsx): for each of the seven
    selections it shows the option texts of the cached list, highlights the
    selected option, turns a click on a text into a filter change, and
    shows the "no line groups" message until the user dismisses it. */
module FilterSelections {
  import opened Base
  import opened Strings
  import opened JsValues
  import opened Filters

  /** The option list a selection reads (`filterTypeMapping`). */
  const FilterTypeMapping: map<string, string> := map[
    "Agency" := "Agency", "Cluster" := "Cluster", "SubCluster" := "SubCluster", "City" := "Cities",
    "RouteNumber" := "LineID", "LineType" := "LineType", "linegroup" := "linegroup"]

  /** The property holding an option's text. */
  const DisplayFields: map<string, string> := map[
    "Agency" := "agency_name", "Cluster" := "ClusterName", "SubCluster" := "SubCluster", "City" := "CityName",
    "RouteNumber" := "RouteNumber", "LineType" := "LineType", "linegroup" := "descrip"]

  /** The property holding an option's value. */
  const OptionFields: map<string, string> := map[
    "Agency" := "agency_id", "Cluster" := "Clusterid", "SubCluster" := "SubCluster", "City" := "CityName",
    "RouteNumber" := "LineID", "LineType" := "LineType", "linegroup" := "id"]

  /** The cached option list of a selection, or none (`|| []`). */
  function OptionsOf(s: FiltersState, id: string): (opts: seq<Record>)
    requires id in FilterTypeMapping
    ensures FilterTypeMapping[id] !in s.options ==> opts == []
  {
    if FilterTypeMapping[id] in s.options then s.options[FilterTypeMapping[id]] else []
  }

  /** `Object.values(v)[0]`. */
  function FirstValue(fields: Record): JsValue {
    if |fields| == 0 then Undefined else fields[0].1
  }

  /** `String(value || '')`, an object standing for its first property. */
  function Text(v: JsValue): (t: string)
    ensures !v.Obj? && Truthy(v) ==> t == ToStr(v)
    ensures !Truthy(v) ==> t == ""
  {
    if v.Obj? then ToStr(Or(FirstValue(v.fields), Str(""))) else ToStr(Or(v, Str("")))
  }

  /** A sub-cluster option carrying `ClusterSubDesc` uses it as is, for its
      text and for its value alike. */
  predicate HasSubDesc(option: Record, id: string) {
    id == "SubCluster" && Get(option, "ClusterSubDesc") != Undefined
  }

  /** The text of the named property, else of `value`, else of the whole
      option: the rule `getDisplayValue` and `getOptionValue` share. */
  function Pick(option: Record, id: string, names: map<string, string>): (v: JsValue)
    ensures HasSubDesc(option, id) ==> v == Get(option, "ClusterSubDesc")
    ensures !HasSubDesc(option, id) ==> v.Str?
    ensures !HasSubDesc(option, id) && id in names && Truthy(Get(option, names[id])) && !Get(option, names[id]).Obj? ==>
      v == Str(ToStr(Get(option, names[id])))
    ensures !HasSubDesc(option, id) && id in names && !Truthy(Get(option, names[id])) && Truthy(Get(option, "value")) && !Get(option, "value").Obj? ==>
      v == Str(ToStr(Get(option, "value")))
  {
    if HasSubDesc(option, id) then Get(option, "ClusterSubDesc")
    else
      var name := if id in names then names[id] else id;
      Str(Text(Or(Or(Get(option, name), Get(option, "value")), Obj(option))))
  }

  /** `getDisplayValue`: the text an option is listed under. */
  function DisplayValue(option: Record, id: string): JsValue
  {
    Pick(option, id, DisplayFields)
  }

  /** `getOptionValue`: the value choosing an option stores. */
  function OptionValue(option: Record, id: string): JsValue
  {
    Pick(option, id, OptionFields)
  }

  /** An option whose id property is a non-zero integer offers its decimal
      rendering as value, and a numeric selection stores that integer. */
  lemma NumericOptionValue(option: Record, id: string, n: int)
    requires id in OptionFields && id != "SubCluster"
    requires Get(option, OptionFields[id]) == Num(Int(n)) && n != 0
    ensures OptionValue(option, id) == Str(IntToString(n))
    ensures id in NumericFields ==> Coerce(id, OptionValue(option, id)) == Num(Int(n))
  {
    CoerceDecimal(id, n);
  }

  /** `getSelectItems`: the texts of the cached options, in list order. */
  function SelectItems(s: FiltersState, id: string): (items: seq<JsValue>)
    requires id in FilterTypeMapping
    ensures |items| == |OptionsOf(s, id)|
    ensures forall i :: 0 <= i < |items| ==> items[i] == DisplayValue(OptionsOf(s, id)[i], id)
  {
    var opts := OptionsOf(s, id);
    seq(|opts|, i requires 0 <= i < |opts| => DisplayValue(opts[i], id))
  }

  /** The first option satisfying `p`. */
  function FindOption(opts: seq<Record>, p: Record -> bool): (r: Option<nat>)
    ensures r.Some? ==> r.value < |opts| && p(opts[r.value])
    ensures r.Some? ==> forall j :: 0 <= j < r.value ==> !p(opts[j])
    ensures r.None? ==> forall j :: 0 <= j < |opts| ==> !p(opts[j])
  {
    if |opts| == 0 then None
    else if p(opts[0]) then Some(0)
    else
      var r := FindOption(opts[1..], p);
      if r.None? then None else Some(r.value + 1)
  }

  /** The highlighted set, given how an option's value is compared with the
      selected one: empty without a truthy selection, else the text of the
      first option whose value matches. */
  function ActiveBy(s: FiltersState, id: string, same: (JsValue, JsValue) -> bool): (r: set<JsValue>)
    requires id in FilterTypeMapping
    ensures !Truthy(Field(s.selected, id)) ==> r == {}
    ensures r == {} || exists i :: (0 <= i < |OptionsOf(s, id)| && r == {DisplayValue(OptionsOf(s, id)[i], id)}
      && same(OptionValue(OptionsOf(s, id)[i], id), Field(s.selected, id))
      && forall j :: 0 <= j < i ==> !same(OptionValue(OptionsOf(s, id)[j], id), Field(s.selected, id)))
    ensures Truthy(Field(s.selected, id)) && (exists i :: 0 <= i < |OptionsOf(s, id)| && same(OptionValue(OptionsOf(s, id)[i], id), Field(s.selected, id))) ==> r != {}
    ensures forall i ::
              Truthy(Field(s.selected, id)) && 0 <= i < |OptionsOf(s, id)| && same(OptionValue(OptionsOf(s, id)[i], id), Field(s.selected, id))
              && (forall j :: 0 <= j < i ==> !same(OptionValue(OptionsOf(s, id)[j], id), Field(s.selected, id)))
              ==> r == {DisplayValue(OptionsOf(s, id)[i], id)}
  {
    var selected := Field(s.selected, id);
    if !Truthy(selected) then {}
    else
      var opts := OptionsOf(s, id);
      match FindOption(opts, (o: Record) => same(OptionValue(o, id), selected))
      case None => {}
      case Some(i) => {DisplayValue(opts[i], id)}
  }

  /** `getActiveFilters` as written: values are compared with `===`. */
  function ActiveFiltersAsWritten(s: FiltersState, id: string): set<JsValue>
    requires id in FilterTypeMapping
  {
    ActiveBy(s, id, StrictEquals)
  }

  /** `getActiveFilters` as intended: values are compared with `==`, so the
      number a numeric selection stores matches its option's string. */
  function ActiveFilters(s: FiltersState, id: string): set<JsValue>
    requires id in FilterTypeMapping
  {
    ActiveBy(s, id, LooseEquals)
  }

  /** A numeric selection holds a number, while every option value but a
      sub-cluster description is a string: as written, nothing is ever
      highlighted for the agency, cluster and line-group selections. */
  lemma AsWrittenNeverHighlightsNumbers(s: FiltersState, id: string)
    requires id in FilterTypeMapping && id in NumericFields
    requires Field(s.selected, id).Num?
    ensures ActiveFiltersAsWritten(s, id) == {}
  {
    var opts := OptionsOf(s, id);
    forall i | 0 <= i < |opts|
      ensures !StrictEquals(OptionValue(opts[i], id), Field(s.selected, id))
    {
      assert OptionValue(opts[i], id).Str?;
    }
  }

  /** `handleSelectClick`: without a cached list the click only asks for
      it; otherwise the first option listed under the clicked text becomes
      the selection, through `handleFilterChange` with an event. */
  function SelectClick(s: FiltersState, id: string, value: JsValue, userId: JsValue): (r: (FiltersState, Option<OptionsRequestBody>))
    requires id in FilterTypeMapping
    ensures FilterTypeMapping[id] !in s.options ==> r == Focus(s, FilterTypeMapping[id], userId)
    ensures FilterTypeMapping[id] in s.options ==> r.1 == None
    ensures FilterTypeMapping[id] in s.options && (forall i :: 0 <= i < |OptionsOf(s, id)| ==> !StrictEquals(DisplayValue(OptionsOf(s, id)[i], id), value)) ==> r.0 == s
    ensures FilterTypeMapping[id] in s.options ==> r.0 == s || exists i :: (0 <= i < |OptionsOf(s, id)| &&
      StrictEquals(DisplayValue(OptionsOf(s, id)[i], id), value) && r.0 == ChangeFilter(s, FromEvent(Some((id, OptionValue(OptionsOf(s, id)[i], id))))))
    ensures forall i ::
              FilterTypeMapping[id] in s.options && 0 <= i < |OptionsOf(s, id)| && StrictEquals(DisplayValue(OptionsOf(s, id)[i], id), value)
              && (forall j :: 0 <= j < i ==> !StrictEquals(DisplayValue(OptionsOf(s, id)[j], id), value))
              ==> r.0 == ChangeFilter(s, FromEvent(Some((id, OptionValue(OptionsOf(s, id)[i], id)))))
  {
    if FilterTypeMapping[id] !in s.options then Focus(s, FilterTypeMapping[id], userId)
    else
      var opts := OptionsOf(s, id);
      var p := (o: Record) => StrictEquals(DisplayValue(o, id), value);
      match FindOption(opts, p)
      case None => (s, None)
      case Some(k) =>
        assert forall i :: 0 <= i < |opts| && p(opts[i]) && (forall j :: 0 <= j < i ==> !p(opts[j])) ==> i == k;
        (ChangeFilter(s, FromEvent(Some((id, OptionValue(opts[k], id))))), None)
  }

  /** `handleSelectOpen`: opening a selection without a cached list loads it. */
  function SelectOpen(s: FiltersState, id: string, userId: JsValue): (r: (FiltersState, Option<OptionsRequestBody>))
    requires id in FilterTypeMapping
    ensures r.1.Some? ==> FilterTypeMapping[id] !in s.options && r.1.value.selectChoice == FilterTypeMapping[id]
    ensures FilterTypeMapping[id] in s.options ==> r == (s, None)
    ensures FilterTypeMapping[id] !in s.options ==> r == Focus(s, FilterTypeMapping[id], userId)
  {
    if FilterTypeMapping[id] !in s.options then Focus(s, FilterTypeMapping[id], userId) else (s, None)
  }

  /** A selection's own option list survives choosing one of its options. */
  lemma OwnListKept(s: FiltersState, id: string, v: JsValue)
    requires id in FilterTypeMapping && FilterTypeMapping[id] in s.options
    ensures OptionsOf(ChangeFilter(s, FromEvent(Some((id, v)))), id) == OptionsOf(s, id)
  {
    if id == "Agency" {
      EvictedLists();
    }
  }

  /** Clicking the text of a numeric option with a non-zero integer id: the
      intended comparison highlights an option of that value, while the
      comparison as written highlights nothing. */
  lemma ChosenNumericOption(s: FiltersState, id: string, i: nat, n: int, userId: JsValue)
    requires id in FilterTypeMapping && id in NumericFields && FilterTypeMapping[id] in s.options
    requires i < |OptionsOf(s, id)|
    requires forall j :: 0 <= j < i ==> !StrictEquals(DisplayValue(OptionsOf(s, id)[j], id), DisplayValue(OptionsOf(s, id)[i], id))
    requires Get(OptionsOf(s, id)[i], OptionFields[id]) == Num(Int(n)) && n != 0
    ensures var chosen := SelectClick(s, id, DisplayValue(OptionsOf(s, id)[i], id), userId).0;
      Field(chosen.selected, id) == Num(Int(n)) && ActiveFilters(chosen, id) != {} && ActiveFiltersAsWritten(chosen, id) == {}
    ensures (forall j :: 0 <= j < i ==> !LooseEquals(OptionValue(OptionsOf(s, id)[j], id), Num(Int(n)))) ==>
      ActiveFilters(SelectClick(s, id, DisplayValue(OptionsOf(s, id)[i], id), userId).0, id) == {DisplayValue(OptionsOf(s, id)[i], id)}
  {
    var opts := OptionsOf(s, id);
    var option := OptionValue(opts[i], id);
    ClickChoosesOption(s, id, i, userId);
    var chosen := ChangeFilter(s, FromEvent(Some((id, option))));
    assert Field(chosen.selected, id) == Num(Int(n)) && OptionsOf(chosen, id) == opts by {
      NumericOptionValue(opts[i], id, n);
      OwnListKept(s, id, option);
    }
    assert LooseEquals(option, Num(Int(n))) by {
      NumericOptionValue(opts[i], id, n);
      NumberOfString(n);
    }
    assert Truthy(Field(chosen.selected, id));
    AsWrittenNeverHighlightsNumbers(chosen, id);
  }

  /** Clicking the text of the first option listed under it chooses that
      option; only a text `===` cannot match, a sub-cluster description
      that is NaN, leaves the selection as it was. */
  lemma ClickChoosesOption(s: FiltersState, id: string, i: nat, userId: JsValue)
    requires id in FilterTypeMapping && FilterTypeMapping[id] in s.options
    requires i < |OptionsOf(s, id)|
    requires forall j :: 0 <= j < i ==> !StrictEquals(DisplayValue(OptionsOf(s, id)[j], id), DisplayValue(OptionsOf(s, id)[i], id))
    ensures var value := DisplayValue(OptionsOf(s, id)[i], id);
      SelectClick(s, id, value, userId).0
      == if StrictEquals(value, value) then ChangeFilter(s, FromEvent(Some((id, OptionValue(OptionsOf(s, id)[i], id))))) else s
    ensures !HasSubDesc(OptionsOf(s, id)[i], id) ==>
              SelectClick(s, id, DisplayValue(OptionsOf(s, id)[i], id), userId).0
              == ChangeFilter(s, FromEvent(Some((id, OptionValue(OptionsOf(s, id)[i], id)))))
  {
    var opts := OptionsOf(s, id);
    var value := DisplayValue(opts[i], id);
    if !HasSubDesc(opts[i], id) {
      assert value.Str?;
    }
    if !StrictEquals(value, value) {
      assert forall j :: 0 <= j < |opts| ==> !StrictEquals(DisplayValue(opts[j], id), value);
    }
  }

  // ---------------------------------------------------------------------
  // The "no line groups" message

  /** Which selections show their message, and those the user dismissed for
      good (`hiddenMessagesRef`). */
  datatype Messages = Messages(show: map<string, bool>, dismissed: set<string>)

  /** Recomputed whenever the option cache changes: a selection shows its
      message when its list is flagged empty and the user has not dismissed
      it. */
  function RefreshMessages(m: Messages, emptyFlags: set<string>): (r: Messages)
    ensures r.dismissed == m.dismissed && r.show.Keys == FilterTypeMapping.Keys
    ensures forall id :: id in r.show ==> (r.show[id] <==> FilterTypeMapping[id] in emptyFlags && id !in m.dismissed)
  {
    m.(show := map id | id in FilterTypeMapping :: FilterTypeMapping[id] in emptyFlags && id !in m.dismissed)
  }

  /** `handleErrorMessageClick`: the message goes and stays away. */
  function DismissMessage(m: Messages, id: string): (r: Messages)
    ensures id in r.dismissed && id in r.show && !r.show[id]
    ensures forall other :: other in m.show && other != id ==> other in r.show && r.show[other] == m.show[other]
  {
    Messages(m.show[id := false], m.dismissed + {id})
  }

  /** A dismissed message never returns, whatever the cache becomes. */
  lemma DismissedStaysHidden(m: Messages, id: string, flags: seq<set<string>>)
    requires id in FilterTypeMapping
    ensures var r := RefreshAll(DismissMessage(m, id), flags); id in r.show && !r.show[id]
  {
    var d := DismissMessage(m, id);
    RefreshAllKeepsDismissed(d, id, flags);
  }

  /** Successive refreshes. */
  function RefreshAll(m: Messages, flags: seq<set<string>>): (r: Messages)
    ensures r.dismissed == m.dismissed
    decreases |flags|
  {
    if |flags| == 0 then m else RefreshAll(RefreshMessages(m, flags[0]), flags[1..])
  }

  lemma {:induction false} RefreshAllKeepsDismissed(m: Messages, id: string, flags: seq<set<string>>)
    requires id in FilterTypeMapping && id in m.dismissed && id in m.show && !m.show[id]
    ensures var r := RefreshAll(m, flags); id in r.show && !r.show[id]
    decreases |flags|
  {
    if |flags| > 0 {
      RefreshAllKeepsDismissed(RefreshMessages(m, flags[0]), id, flags[1..]);
    }
  }

  /** What stands in a selection's place. */
  datatype SelectionView = LoadingIndicator | NoGroupsMessage | SelectBox

  /** The loading text while the list loads; for the line groups, the
      message while it shows; the drop-down otherwise. */
  function View(s: FiltersState, m: Messages, id: string): (v: SelectionView)
    requires id in FilterTypeMapping
    ensures v.LoadingIndicator? <==> IsLoading(s, FilterTypeMapping[id])
    ensures v.NoGroupsMessage? ==> id == "linegroup"
    ensures v.NoGroupsMessage? <==> !IsLoading(s, FilterTypeMapping[id]) && id == "linegroup" && id in m.show && m.show[id]
  {
    if IsLoading(s, FilterTypeMapping[id]) then LoadingIndicator
    else if id == "linegroup" && id in m.show && m.show[id] then NoGroupsMessage
    else SelectBox
  }

  /** When the service says the user has no line groups, the line-group
      selection gives way to the message unless the user dismissed it. */
  lemma NoGroupsShown(s: FiltersState, m: Messages, o: Outcome)
    requires Classify("linegroup", o).NoLineGroups? && "linegroup" !in m.dismissed
    ensures var settled := FinishLoad(s, "linegroup", o);
      View(settled, RefreshMessages(m, settled.emptyFlags), "linegroup") == NoGroupsMessage
  {
  }
}
