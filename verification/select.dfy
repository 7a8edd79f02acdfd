/** The drop-down (select.jsx): it opens and closes, keeps its own copy of
    the highlighted items, and narrows its list to the items the search
    text matches. */
module SelectBox {
  import opened Base
  import opened Strings
  import opened JsValues

  /** Whether the list is open, the highlighted items and the items the
      search left. */
  datatype SelectState = SelectState(active: bool, localActive: set<JsValue>, found: seq<JsValue>)

  /** `handlerClick`: the button toggles the list; opening it, and only
      opening it, calls `onOpen` (the boolean says whether it was called). */
  function ToggleOpen(st: SelectState, hasOnOpen: bool): (r: (SelectState, bool))
    ensures r.0.active == !st.active
    ensures r.1 <==> !st.active && hasOnOpen
    ensures r.0.localActive == st.localActive && r.0.found == st.found
  {
    (st.(active := !st.active), !st.active && hasOnOpen)
  }

  /** Opening and closing again restores the drop-down and calls `onOpen`
      once at most. */
  lemma OpenThenClose(st: SelectState, hasOnOpen: bool)
    ensures var (shown, first) := ToggleOpen(st, hasOnOpen);
      var (closed, second) := ToggleOpen(shown, hasOnOpen);
      closed == st && !(first && second)
  {
  }

  /** A mouse press anywhere on the page: one outside the drop-down closes
      an open list; nothing else changes. */
  function MouseDown(st: SelectState, inside: bool): (r: SelectState)
    ensures r.active <==> st.active && inside
    ensures r.localActive == st.localActive && r.found == st.found
  {
    if st.active && !inside then st.(active := false) else st
  }

  /** `handleCheckboxClick`: a radio drop-down highlights only the clicked
      item, any other kind toggles it; the item goes on to `onClick` when
      there is one. */
  function CheckboxClick(st: SelectState, kind: string, value: JsValue, hasOnClick: bool): (r: (SelectState, Option<JsValue>))
    ensures kind == "radio" ==> r.0.localActive == {value}
    ensures kind != "radio" ==> (value in r.0.localActive <==> value !in st.localActive)
    ensures kind != "radio" ==> forall x :: x != value ==> (x in r.0.localActive <==> x in st.localActive)
    ensures r.1 == if hasOnClick then Some(value) else None
    ensures r.0.active == st.active && r.0.found == st.found
  {
    var highlighted :=
      if kind == "radio" then {value}
      else if value in st.localActive then st.localActive - {value}
      else st.localActive + {value};
    (st.(localActive := highlighted), if hasOnClick then Some(value) else None)
  }

  /** Clicking a checkbox twice restores the highlighted set; clicking a
      radio item twice is clicking it once. */
  lemma ClickTwice(st: SelectState, kind: string, value: JsValue, hasOnClick: bool)
    ensures var once := CheckboxClick(st, kind, value, hasOnClick).0;
      var twice := CheckboxClick(once, kind, value, hasOnClick).0;
      (kind != "radio" ==> twice.localActive == st.localActive) && (kind == "radio" ==> twice == once)
  {
    var once := CheckboxClick(st, kind, value, hasOnClick).0;
    var twice := CheckboxClick(once, kind, value, hasOnClick).0;
    if kind != "radio" {
      assert forall x :: x in twice.localActive <==> x in st.localActive;
    }
  }

  /** New props: the highlighted set follows `activeFilters` when given,
      and the list follows `items`. */
  function Receive(st: SelectState, activeFilters: Option<set<JsValue>>, items: seq<JsValue>): (r: SelectState)
    ensures activeFilters.Some? ==> r.localActive == activeFilters.value
    ensures activeFilters.None? ==> r.localActive == st.localActive
    ensures r.found == items && r.active == st.active
  {
    st.(localActive := if activeFilters.Some? then activeFilters.value else st.localActive, found := items)
  }

  // ---------------------------------------------------------------------
  // Search

  /** The characters with a meaning of their own in a regular expression. */
  predicate IsPlainQuery(q: string) {
    forall i :: 0 <= i < |q| ==> q[i] !in "\\^$.|?*+()[]{}"
  }

  /** Case folding of the `i` flag, for the Latin letters. */
  function Fold(c: char): char {
    if 'A' <= c <= 'Z' then (c as int + 32) as char else c
  }

  function FoldAll(s: string): (r: string)
    ensures |r| == |s| && forall i :: 0 <= i < |s| ==> r[i] == Fold(s[i])
  {
    seq(|s|, i requires 0 <= i < |s| => Fold(s[i]))
  }

  /** `item.match(new RegExp(q, "i"))` for a query without special
      characters: the query occurs in the item, letters compared without
      case. */
  predicate Matches(item: string, q: string) {
    Contains(FoldAll(item), FoldAll(q))
  }

  /** `items.filter(...)` read front to back: the string items the query
      matches, in their order and with their repetitions. */
  function Matching(items: seq<JsValue>, q: string): seq<JsValue> {
    if |items| == 0 then []
    else (if items[0].Str? && Matches(items[0].s, q) then [items[0]] else []) + Matching(items[1..], q)
  }

  /** Filtering a list with one more item at its end. */
  lemma {:induction false} MatchingSnoc(items: seq<JsValue>, x: JsValue, q: string)
    ensures Matching(items + [x], q) == Matching(items, q) + (if x.Str? && Matches(x.s, q) then [x] else [])
  {
    if |items| > 0 {
      assert (items + [x])[1..] == items[1..] + [x];
      MatchingSnoc(items[1..], x, q);
    }
  }

  /** The search field's handler: the items the query matches, in order;
      None when an item is not a string, which makes `match` throw. */
  function Search(items: seq<JsValue>, q: string): (r: Option<seq<JsValue>>)
    requires IsPlainQuery(q)
    ensures r.None? <==> exists i :: 0 <= i < |items| && !items[i].Str?
    ensures r.Some? ==> |r.value| <= |items|
    ensures r.Some? ==> forall x :: x in r.value <==> x in items && Matches(x.s, q)
    ensures r.Some? ==> r.value == Matching(items, q)
    decreases |items|
  {
    if |items| == 0 then Some([])
    else
      var init, last := items[..|items| - 1], items[|items| - 1];
      var rest := Search(init, q);
      assert items == init + [last];
      if !last.Str? || rest.None? then None
      else
        MatchingSnoc(init, last, q);
        Some(rest.value + (if Matches(last.s, q) then [last] else []))
  }

  /** The empty query matches every item. */
  lemma EmptyQueryKeepsAll(item: string)
    ensures Matches(item, "")
  {
    assert OccursAt(FoldAll(item), FoldAll(""), 0);
  }

  /** Typing more only narrows the list: every item a longer query matches,
      its beginning matches too. */
  lemma LongerQueryNarrows(item: string, q: string, more: string)
    requires Matches(item, q + more)
    ensures Matches(item, q)
  {
    var s, t := FoldAll(item), FoldAll(q + more);
    var i :| 0 <= i <= |s| - |t| && OccursAt(s, t, i);
    assert FoldAll(q) == t[..|q|];
    assert s[i..i + |q|] == s[i..i + |t|][..|q|];
    assert OccursAt(s, FoldAll(q), i);
  }
}
