/** The chart order dialog (chart-order-modal.jsx): it opens with the
    page's charts in their saved order, lets the user drag charts to new
    places and hide or show them, and on saving hands the page a position per
    title and the hidden titles. */
module ChartOrderModal {
  import opened Base
  import opened StableSort
  import opened ChartData
  import opened ChartsPage

  /** The dialog's working copy: the charts in their current order and the
      titles the user has hidden. */
  datatype ModalState = ModalState(isOpen: bool, localCharts: seq<Chart>, localHidden: seq<string>)

  /** `charts.indexOf(c)`: the first position of `c`, or -1. */
  function IndexOf(charts: seq<Chart>, c: Chart): (i: int)
    ensures -1 <= i < |charts|
    ensures 0 <= i ==> charts[i] == c && forall j :: 0 <= j < i ==> charts[j] != c
    ensures i == -1 <==> c !in charts
  {
    if |charts| == 0 then -1
    else if charts[0] == c then 0
    else
      var j := IndexOf(charts[1..], c);
      if j == -1 then -1 else j + 1
  }

  /** The key the dialog sorts by: `chartsOrder[title] ?? charts.indexOf(c)`. */
  function InitialKey(charts: seq<Chart>, order: map<string, int>): Chart -> SortKey {
    (c: Chart) => if c.title in order then Finite(order[c.title]) else Finite(IndexOf(charts, c))
  }

  /** The order the dialog opens with: the page's charts by their saved
      position, an unplaced chart standing at its own position; ties keep
      the page's order. */
  function InitialOrder(charts: seq<Chart>, order: map<string, int>): (r: seq<Chart>)
    ensures multiset(r) == multiset(charts)
    ensures Sorted(r, InitialKey(charts, order))
    ensures forall k :: WithKey(r, InitialKey(charts, order), k) == WithKey(charts, InitialKey(charts, order), k)
  {
    var key := InitialKey(charts, order);
    SortPermutes(charts, key);
    SortSorted(charts, key);
    assert forall k :: WithKey(SortBy(charts, key), key, k) == WithKey(charts, key, k) by {
      forall k
        ensures WithKey(SortBy(charts, key), key, k) == WithKey(charts, key, k)
      {
        SortStable(charts, key, k);
      }
    }
    SortBy(charts, key)
  }

  /** Opening the dialog copies the page's order and hidden list. */
  function Open(charts: seq<Chart>, order: map<string, int>, hidden: seq<string>): (m: ModalState)
    ensures m.isOpen && m.localHidden == hidden
    ensures multiset(m.localCharts) == multiset(charts)
  {
    ModalState(true, InitialOrder(charts, order), hidden)
  }

  // ---------------------------------------------------------------------
  // Hiding and showing

  /** `s.filter(y => y !== x)`. */
  function RemoveAll(s: seq<string>, x: string): (r: seq<string>)
    ensures forall y :: y in r <==> y in s && y != x
    ensures x !in s ==> r == s
  {
    if |s| == 0 then []
    else RemoveAll(s[..|s| - 1], x) + (if s[|s| - 1] == x then [] else [s[|s| - 1]])
  }

  /** `handleVisibilityToggle`: a hidden title is shown again (every copy of
      it removed), a shown one is hidden (appended). */
  function ToggleHidden(hidden: seq<string>, id: string): (r: seq<string>)
    ensures id in r <==> id !in hidden
    ensures forall x :: x != id ==> (x in r <==> x in hidden)
  {
    if id in hidden then RemoveAll(hidden, id) else hidden + [id]
  }

  /** Hiding a shown chart and showing it again restores the hidden list. */
  lemma ToggleTwice(hidden: seq<string>, id: string)
    requires id !in hidden
    ensures ToggleHidden(ToggleHidden(hidden, id), id) == hidden
  {
    var once := hidden + [id];
    assert once[..|once| - 1] == hidden;
    assert RemoveAll(once, id) == RemoveAll(hidden, id);
  }

  function ToggleInModal(m: ModalState, id: string): (r: ModalState)
    ensures r.localCharts == m.localCharts && r.isOpen == m.isOpen
    ensures id in r.localHidden <==> id !in m.localHidden
  {
    m.(localHidden := ToggleHidden(m.localHidden, id))
  }

  // ---------------------------------------------------------------------
  // Dragging

  /** The sequence without its element at `i`. */
  function RemoveAt<T>(s: seq<T>, i: nat): (r: seq<T>)
    requires i < |s|
    ensures |r| == |s| - 1
    ensures forall k :: 0 <= k < |r| ==> r[k] == if k < i then s[k] else s[k + 1]
  {
    s[..i] + s[i + 1..]
  }

  /** Removing an element takes one copy of it out of the multiset. */
  lemma RemoveAtMultiset<T>(s: seq<T>, i: nat)
    requires i < |s|
    ensures multiset(RemoveAt(s, i)) + multiset{s[i]} == multiset(s)
  {
    assert s == s[..i] + [s[i]] + s[i + 1..];
  }

  /** The sequence with `x` inserted before position `i`. */
  function InsertAt<T>(s: seq<T>, i: nat, x: T): (r: seq<T>)
    requires i <= |s|
    ensures |r| == |s| + 1 && r[i] == x
    ensures forall k :: 0 <= k < |r| && k != i ==> r[k] == if k < i then s[k] else s[k - 1]
  {
    s[..i] + [x] + s[i..]
  }

  /** Inserting an element adds one copy of it to the multiset. */
  lemma InsertAtMultiset<T>(s: seq<T>, i: nat, x: T)
    requires i <= |s|
    ensures multiset(InsertAt(s, i, x)) == multiset(s) + multiset{x}
  {
    assert s == s[..i] + s[i..];
  }

  lemma RemoveInserted<T>(s: seq<T>, i: nat, x: T)
    requires i <= |s|
    ensures RemoveAt(InsertAt(s, i, x), i) == s
  {
  }

  lemma InsertRemoved<T>(s: seq<T>, i: nat)
    requires i < |s|
    ensures InsertAt(RemoveAt(s, i), i, s[i]) == s
  {
    var rest := RemoveAt(s, i);
    var r := InsertAt(rest, i, s[i]);
    forall k | 0 <= k < |s|
      ensures r[k] == s[k]
    {
      if k < i {
        assert r[k] == rest[k];
      } else if k > i {
        assert r[k] == rest[k - 1];
      }
    }
  }

  /** `arrayMove` of dnd-kit: the element at `from` is taken out and put
      back at index `to`; the elements in between shift by one place and all
      others stay. */
  function ArrayMove<T>(s: seq<T>, from: nat, to: nat): (r: seq<T>)
    requires from < |s| && to < |s|
    ensures |r| == |s| && r[to] == s[from]
    ensures multiset(r) == multiset(s)
    ensures forall i :: 0 <= i < |s| && i < from && i < to ==> r[i] == s[i]
    ensures forall i :: 0 <= i < |s| && i > from && i > to ==> r[i] == s[i]
    ensures from < to ==> forall i :: from <= i < to ==> r[i] == s[i + 1]
    ensures to < from ==> forall i :: to < i <= from ==> r[i] == s[i - 1]
    ensures RemoveAt(r, to) == RemoveAt(s, from)
  {
    var r := InsertAt(RemoveAt(s, from), to, s[from]);
    RemoveInserted(RemoveAt(s, from), to, s[from]);
    RemoveAtMultiset(s, from);
    InsertAtMultiset(RemoveAt(s, from), to, s[from]);
    assert forall i :: 0 <= i < |s| ==> r[i] == MovedElement(s, from, to, i) by {
      forall i | 0 <= i < |s|
        ensures r[i] == MovedElement(s, from, to, i)
      {
        MoveIndex(s, from, to, i);
      }
    }
    r
  }

  /** The element the move puts at position `i`. */
  function MovedElement<T>(s: seq<T>, from: nat, to: nat, i: nat): T
    requires from < |s| && to < |s| && i < |s|
  {
    if i == to then s[from]
    else if (i < from && i < to) || (i > from && i > to) then s[i]
    else if from < to then s[i + 1]
    else s[i - 1]
  }

  lemma MoveIndex<T>(s: seq<T>, from: nat, to: nat, i: nat)
    requires from < |s| && to < |s| && i < |s|
    ensures InsertAt(RemoveAt(s, from), to, s[from])[i] == MovedElement(s, from, to, i)
  {
    var rest := RemoveAt(s, from);
    var r := InsertAt(rest, to, s[from]);
    if i < to {
      assert r[i] == rest[i];
      assert rest[i] == if i < from then s[i] else s[i + 1];
    } else if i > to {
      assert r[i] == rest[i - 1];
      assert rest[i - 1] == if i - 1 < from then s[i - 1] else s[i];
    }
  }

  /** Dragging a chart back to where it came from undoes the move. */
  lemma ArrayMoveInverse<T>(s: seq<T>, from: nat, to: nat)
    requires from < |s| && to < |s|
    ensures ArrayMove(ArrayMove(s, from, to), to, from) == s
  {
    var rest := RemoveAt(s, from);
    RemoveInserted(rest, to, s[from]);
    InsertRemoved(s, from);
  }

  /** The position of the first chart titled `t`, if any (`findIndex`). */
  function FindTitle(charts: seq<Chart>, t: string): (r: Option<nat>)
    ensures r.Some? ==> r.value < |charts| && charts[r.value].title == t
    ensures r.Some? ==> forall j :: 0 <= j < r.value ==> charts[j].title != t
    ensures r.None? ==> forall j :: 0 <= j < |charts| ==> charts[j].title != t
  {
    if |charts| == 0 then None
    else if charts[0].title == t then Some(0)
    else
      var r := FindTitle(charts[1..], t);
      if r.None? then None else Some(r.value + 1)
  }

  /** `handleDragEnd`: the chart dragged (`active`) takes the place of the
      chart it was dropped on (`over`). A drop outside every chart makes the
      handler throw, and a drop on itself changes nothing. */
  function DragEnd(m: ModalState, active: string, over: Option<string>): (r: ModalState)
    ensures r.localHidden == m.localHidden && r.isOpen == m.isOpen
    ensures |r.localCharts| == |m.localCharts|
    ensures multiset(r.localCharts) == multiset(m.localCharts)
    ensures over.None? || over == Some(active) ==> r == m
    ensures over.Some? && FindTitle(m.localCharts, active).Some? && FindTitle(m.localCharts, over.value).Some? ==>
      r.localCharts[FindTitle(m.localCharts, over.value).value] == m.localCharts[FindTitle(m.localCharts, active).value]
    ensures over.Some? && FindTitle(m.localCharts, active).Some? && FindTitle(m.localCharts, over.value).Some? ==>
      RemoveAt(r.localCharts, FindTitle(m.localCharts, over.value).value) == RemoveAt(m.localCharts, FindTitle(m.localCharts, active).value)
    ensures over.Some? && over.value != active && FindTitle(m.localCharts, active).Some? && FindTitle(m.localCharts, over.value).Some? ==>
      r.localCharts == ArrayMove(m.localCharts, FindTitle(m.localCharts, active).value, FindTitle(m.localCharts, over.value).value)
  {
    if over.None? || over.value == active then m
    else
      var oldIndex, newIndex := FindTitle(m.localCharts, active), FindTitle(m.localCharts, over.value);
      if oldIndex.None? || newIndex.None? then m
      else m.(localCharts := ArrayMove(m.localCharts, oldIndex.value, newIndex.value))
  }

  // ---------------------------------------------------------------------
  // Saving

  /** `r` records for every title of `list` the last position it occupies. */
  ghost predicate LastPositions(list: seq<Chart>, r: map<string, int>) {
    (forall i :: 0 <= i < |list| ==> list[i].title in r)
    && (forall t :: t in r ==> 0 <= r[t] < |list| && list[r[t]].title == t)
    && (forall t :: t in r ==> forall j :: r[t] < j < |list| ==> list[j].title != t)
  }

  /** Recording one more chart at the end keeps the last positions. */
  lemma LastPositionsExtend(init: seq<Chart>, c: Chart, prev: map<string, int>)
    requires LastPositions(init, prev)
    ensures LastPositions(init + [c], prev[c.title := |init|])
  {
    var list, r := init + [c], prev[c.title := |init|];
    forall i | 0 <= i < |list|
      ensures list[i].title in r
    {
      if i < |init| {
        assert list[i] == init[i];
      }
    }
    forall t | t in r
      ensures 0 <= r[t] < |list| && list[r[t]].title == t
      ensures forall j :: r[t] < j < |list| ==> list[j].title != t
    {
      if t != c.title {
        assert list[r[t]] == init[r[t]];
        forall j | r[t] < j < |list|
          ensures list[j].title != t
        {
          if j < |init| {
            assert list[j] == init[j];
          }
        }
      }
    }
  }

  /** `newOrder[chart.title] = index` for every chart in turn: each title
      maps to the last position it occupies. */
  function SaveOrder(list: seq<Chart>): (r: map<string, int>)
    ensures LastPositions(list, r)
  {
    if |list| == 0 then map[]
    else
      var init := list[..|list| - 1];
      LastPositionsExtend(init, list[|list| - 1], SaveOrder(init));
      assert init + [list[|list| - 1]] == list;
      SaveOrder(init)[list[|list| - 1].title := |list| - 1]
  }

  /** No two charts share a title. */
  ghost predicate DistinctTitles(list: seq<Chart>) {
    forall i, j :: 0 <= i < |list| && 0 <= j < |list| && i != j ==> list[i].title != list[j].title
  }

  /** With distinct titles every chart is saved at its own position. */
  lemma SaveOrderPositions(list: seq<Chart>)
    requires DistinctTitles(list)
    ensures forall i :: 0 <= i < |list| ==> SaveOrder(list)[list[i].title] == i
  {
    var r := SaveOrder(list);
    forall i | 0 <= i < |list|
      ensures r[list[i].title] == i
    {
      var p := r[list[i].title];
      assert list[p].title == list[i].title;
    }
  }

  lemma SavedAtOwnPositions(list: seq<Chart>)
    ensures DistinctTitles(list) ==> forall i :: 0 <= i < |list| ==> SaveOrder(list)[list[i].title] == i
  {
    if DistinctTitles(list) {
      SaveOrderPositions(list);
    }
  }

  /** What saving hands to the page. */
  datatype Saved = Saved(modal: ModalState, order: map<string, int>, hidden: seq<string>)

  /** `handleSave`: the order of the working list and the hidden titles go
      to the page, and the dialog closes. */
  function Save(m: ModalState): (r: Saved)
    ensures !r.modal.isOpen && r.hidden == m.localHidden
    ensures forall i :: 0 <= i < |m.localCharts| ==> m.localCharts[i].title in r.order
    ensures DistinctTitles(m.localCharts) ==> forall i :: 0 <= i < |m.localCharts| ==> r.order[m.localCharts[i].title] == i
  {
    SavedAtOwnPositions(m.localCharts);
    Saved(m.(isOpen := false), SaveOrder(m.localCharts), m.localHidden)
  }

  /** `handleClose`: the dialog closes and the page keeps its preferences;
      the next opening starts again from them. */
  function Close(m: ModalState): (r: ModalState)
    ensures !r.isOpen
    ensures r.localCharts == m.localCharts && r.localHidden == m.localHidden
  {
    m.(isOpen := false)
  }

  // ---------------------------------------------------------------------
  // Round trips

  /** The keys of a saved arrangement identify the charts and follow it. */
  lemma SavedKeys(charts: seq<Chart>, list: seq<Chart>, key: Chart -> SortKey)
    requires multiset(list) == multiset(charts) && DistinctTitles(list)
    requires forall c :: c in charts ==> c.title in SaveOrder(list) && key(c) == Finite(SaveOrder(list)[c.title])
    ensures Sorted(list, key)
    ensures forall r :: multiset(r) == multiset(charts) ==> AllComparable(r, key) && KeyIdentifies(r, key)
  {
    var order := SaveOrder(list);
    SaveOrderPositions(list);
    forall i | 0 <= i < |list|
      ensures key(list[i]) == Finite(i)
    {
      assert list[i] in multiset(charts);
    }
    forall r: seq<Chart> | multiset(r) == multiset(charts)
      ensures AllComparable(r, key) && KeyIdentifies(r, key)
    {
      forall i | 0 <= i < |r|
        ensures Comparable(key(r[i]))
      {
        assert r[i] in multiset(charts);
      }
      forall i, j | 0 <= i < |r| && 0 <= j < |r| && key(r[i]) == key(r[j])
        ensures r[i] == r[j]
      {
        assert r[i] in multiset(list) && r[j] in multiset(list);
        var p :| 0 <= p < |list| && list[p] == r[i];
        var q :| 0 <= q < |list| && list[q] == r[j];
        assert r[i] in multiset(charts) && r[j] in multiset(charts);
        assert key(list[p]) == Finite(p) && key(list[q]) == Finite(q);
      }
    }
  }

  /** Reopening the dialog after saving shows the saved arrangement. */
  lemma ReopenShowsSaved(charts: seq<Chart>, list: seq<Chart>)
    requires multiset(list) == multiset(charts) && DistinctTitles(list)
    ensures InitialOrder(charts, SaveOrder(list)) == list
  {
    var order := SaveOrder(list);
    var key := InitialKey(charts, order);
    forall c | c in charts
      ensures c.title in order && key(c) == Finite(order[c.title])
    {
      assert c in multiset(list);
    }
    SavedKeys(charts, list, key);
    SortedUnique(InitialOrder(charts, order), list, key);
  }

  /** Nothing hidden keeps every chart. */
  lemma {:induction false} NotHiddenNone(charts: seq<Chart>)
    ensures NotHidden(charts, []) == charts
  {
    if |charts| > 0 {
      var init := charts[..|charts| - 1];
      NotHiddenNone(init);
      assert NotHidden(charts, []) == NotHidden(init, []) + [charts[|charts| - 1]];
      assert init + [charts[|charts| - 1]] == charts;
    }
  }

  /** After saving, the page shows the charts in the saved arrangement. */
  lemma PageShowsSaved(charts: seq<Chart>, list: seq<Chart>)
    requires multiset(list) == multiset(charts) && DistinctTitles(list)
    ensures VisibleCharts(charts, SaveOrder(list), []) == list
  {
    var order := SaveOrder(list);
    var key := ChartRank(order);
    forall c | c in charts
      ensures c.title in order && key(c) == Finite(order[c.title])
    {
      assert c in multiset(list);
    }
    NotHiddenNone(charts);
    SavedKeys(charts, list, key);
    SortedUnique(VisibleCharts(charts, order, []), list, key);
  }
}
