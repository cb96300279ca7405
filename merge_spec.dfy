/**
 * The list merger (`Merge`) as pure functions over a state record. Several
 * ranked lists of tie-groups are folded into one `main_list`: each group of
 * the current `sort_list` is placed by a binary search that a human drives
 * with greater / equal / less judgements. Groups are drawn alternately from
 * the back and the front of `sort_list`, and each placement narrows the
 * outer window `list_lower..list_upper` for the groups still to come.
 */
module MergeSpec {
  import opened Wrappers

  /** Which end of `sort_list` the next draw takes: `Top` pops the back, `Bot` shifts the front. */
  datatype Mode = Top | Bot

  /** A human judgement of `current_sort_element` against `current_comparison_element`. */
  datatype Decision = Greater | Tie | Less

  /** The fields of a `Merge` instance; a group is a sequence of ids. */
  datatype MergeState<T> = MergeState(
    documentLists: seq<seq<seq<T>>>,
    mainList: seq<seq<T>>,
    sortList: seq<seq<T>>,
    currentUpper: int,
    currentLower: int,
    listUpper: int,
    listLower: int,
    middle: int,
    mode: Mode,
    currentSortElement: Option<seq<T>>,
    currentComparisonElement: Option<seq<T>>,
    over: bool)

  // ---------------------------------------------------------------------
  // Sequence helpers
  // ---------------------------------------------------------------------

  /** JavaScript's `flat()` one level deep. */
  function Flatten<X>(xs: seq<seq<X>>): seq<X>
  {
    if xs == [] then [] else xs[0] + Flatten(xs[1..])
  }

  lemma FlattenAppend<X>(a: seq<seq<X>>, b: seq<seq<X>>)
    ensures Flatten(a + b) == Flatten(a) + Flatten(b)
  {
    if a == [] {
      assert a + b == b;
    } else {
      assert (a + b)[0] == a[0];
      assert (a + b)[1..] == a[1..] + b;
      FlattenAppend(a[1..], b);
    }
  }

  /** The last element of a non-empty sequence. */
  function Last<X>(xs: seq<X>): X
    requires xs != []
  {
    xs[|xs| - 1]
  }

  /** Every id held by a sequence of groups. */
  function GroupIds<T>(gs: seq<seq<T>>): multiset<T>
  {
    multiset(Flatten(gs))
  }

  lemma GroupIdsAppend<T>(a: seq<seq<T>>, b: seq<seq<T>>)
    ensures GroupIds(a + b) == GroupIds(a) + GroupIds(b)
  {
    FlattenAppend(a, b);
  }

  lemma GroupIdsPop<T>(gs: seq<seq<T>>)
    requires gs != []
    ensures GroupIds(gs) == GroupIds(gs[..|gs| - 1]) + multiset(Last(gs))
    ensures GroupIds(gs) == multiset(gs[0]) + GroupIds(gs[1..])
  {
    assert gs == gs[..|gs| - 1] + [Last(gs)];
    GroupIdsAppend(gs[..|gs| - 1], [Last(gs)]);
    assert Flatten([Last(gs)]) == Last(gs);
  }

  /** Every id held by a sequence of lists. */
  function ListIds<T>(ls: seq<seq<seq<T>>>): multiset<T>
  {
    if ls == [] then multiset{} else ListIds(ls[..|ls| - 1]) + GroupIds(Last(ls))
  }

  /** The number of groups held by a sequence of lists. */
  function ListGroups<T>(ls: seq<seq<seq<T>>>): nat
  {
    if ls == [] then 0 else ListGroups(ls[..|ls| - 1]) + |Last(ls)|
  }

  // ---------------------------------------------------------------------
  // The constructor
  // ---------------------------------------------------------------------

  /**
   * The `reduce` of the constructor: consecutive runs of `groupBy` lists
   * (the last run may be shorter) are flattened into one list each.
   */
  function Batches<X>(lists: seq<seq<X>>, groupBy: int): (r: seq<seq<X>>)
    requires groupBy >= 1
    ensures |r| <= |lists| && (lists != [] ==> r != [])
    ensures Flatten(r) == Flatten(lists)
    ensures groupBy == 1 ==> r == lists
    decreases |lists|
  {
    if lists == [] then []
    else
      var k := if |lists| < groupBy then |lists| else groupBy;
      assert lists[..k] + lists[k..] == lists;
      FlattenAppend(lists[..k], lists[k..]);
      assert Flatten([lists[0]]) == lists[0];
      [Flatten(lists[..k])] + Batches(lists[k..], groupBy)
  }

  /** Ascending by length. */
  predicate SortedByLength<X>(ls: seq<seq<X>>)
  {
    forall i, j :: 0 <= i < j < |ls| ==> |ls[i]| <= |ls[j]|
  }

  /** Where a stable insertion puts `x`: after every element no longer than it. */
  function InsertionPoint<X>(sorted: seq<seq<X>>, x: seq<X>): (i: nat)
    requires SortedByLength(sorted)
    ensures i <= |sorted|
    ensures forall k :: 0 <= k < i ==> |sorted[k]| <= |x|
    ensures forall k :: i <= k < |sorted| ==> |x| < |sorted[k]|
  {
    if sorted == [] || |Last(sorted)| <= |x| then |sorted|
    else InsertionPoint(sorted[..|sorted| - 1], x)
  }

  /** One step of the stable insertion sort. */
  function InsertByLength<X>(sorted: seq<seq<X>>, x: seq<X>): (r: seq<seq<X>>)
    requires SortedByLength(sorted)
    ensures SortedByLength(r)
    ensures multiset(r) == multiset(sorted) + multiset{x}
    ensures |r| == |sorted| + 1
  {
    var i := InsertionPoint(sorted, x);
    var r := sorted[..i] + [x] + sorted[i..];
    assert sorted[..i] + sorted[i..] == sorted;
    assert forall k :: 0 <= k < |r| ==> r[k] == if k < i then sorted[k] else if k == i then x else sorted[k - 1];
    r
  }

  /** The constructor's stable `sort((a, b) => a.length - b.length)`. */
  function SortByLength<X>(lists: seq<seq<X>>): (r: seq<seq<X>>)
    ensures SortedByLength(r)
    ensures multiset(r) == multiset(lists)
    ensures |r| == |lists|
  {
    if lists == [] then []
    else
      assert lists == lists[..|lists| - 1] + [Last(lists)];
      InsertByLength(SortByLength(lists[..|lists| - 1]), Last(lists))
  }

  /** `#middle_index`: the floor of the mean of the two bounds. */
  function MiddleIndex(upper: int, lower: int): (m: int)
    ensures 2 * m <= upper + lower < 2 * m + 2
    ensures lower <= upper ==> lower <= m <= upper
  {
    (upper + lower) / 2
  }

  /**
   * The constructor. The two longest batches become `main_list` and
   * `sort_list`; the first group of `sort_list` is drawn from the front.
   * With fewer than two batches the source reads a property of `undefined`.
   */
  function Init<T>(documentLists: seq<seq<seq<T>>>, groupBy: int): (r: Result<MergeState<T>>)
    requires groupBy >= 1
    ensures r.Failure? <==> |Batches(documentLists, groupBy)| < 2
    ensures r.Success? ==>
      var s := r.value;
      s.mode == Top && !s.over && s.currentLower == 0 && s.listLower == 0
      && s.currentUpper == |s.mainList| - 1 && s.listUpper == |s.mainList| - 1
      && s.middle == MiddleIndex(s.currentUpper, s.currentLower)
      && s.currentComparisonElement == At(s.mainList, s.middle)
      && (s.currentSortElement.None? ==> s.sortList == [])
  {
    var lists := SortedBatches(documentLists, groupBy);
    if |lists| < 2 then
      Failure(TypeError("main_list or sort_list is undefined"))
    else
      Success(Start(lists))
  }

  /** The constructor's `reduce` followed by its `sort`. */
  function SortedBatches<T>(documentLists: seq<seq<seq<T>>>, groupBy: int): (r: seq<seq<seq<T>>>)
    requires groupBy >= 1
    ensures |r| == |Batches(documentLists, groupBy)|
  {
    SortByLength(Batches(documentLists, groupBy))
  }

  /** The constructor's state once the batches are sorted: the two pops and the first draw. */
  function Start<T>(lists: seq<seq<seq<T>>>): MergeState<T>
    requires |lists| >= 2
  {
    var main := lists[|lists| - 1];
    var sort := lists[|lists| - 2];
    var upper := |main| - 1;
    var middle := MiddleIndex(upper, 0);
    MergeState(lists[..|lists| - 2], main, if sort == [] then [] else sort[1..],
               upper, 0, upper, 0, middle, Top, At(sort, 0), At(main, middle), false)
  }

  /** `sort_list` as it was before its current element was drawn (the constructor's first draw). */
  function Undrawn<T>(s: MergeState<T>): seq<seq<T>>
  {
    (if s.currentSortElement.Some? then [s.currentSortElement.value] else []) + s.sortList
  }

  // ---------------------------------------------------------------------
  // The search
  // ---------------------------------------------------------------------

  /** `#next`: recompute `middle` and the group it points at. Nothing else changes. */
  function Next<T>(s: MergeState<T>): (r: MergeState<T>)
    ensures r.(middle := s.middle, currentComparisonElement := s.currentComparisonElement) == s
    ensures r.middle == MiddleIndex(s.currentUpper, s.currentLower)
    ensures r.currentComparisonElement.Some? <==> 0 <= r.middle < |s.mainList|
    ensures r.currentComparisonElement.Some? ==> r.currentComparisonElement.value == s.mainList[r.middle]
  {
    var middle := MiddleIndex(s.currentUpper, s.currentLower);
    s.(middle := middle, currentComparisonElement := At(s.mainList, middle))
  }

  /** Whether `#next_sort_element` pops a fresh `sort_list` from `document_lists`. */
  predicate Refills<T>(s: MergeState<T>)
  {
    s.sortList == [] && s.documentLists != []
  }

  /** The list the next group is drawn from. */
  function Pool<T>(s: MergeState<T>): seq<seq<T>>
  {
    if Refills(s) then Last(s.documentLists) else s.sortList
  }

  /**
   * `#next_sort_element`. A fresh `sort_list` is popped when the current one
   * is exhausted; then a group is drawn from the end the mode names and the
   * mode flips, or, with nothing left to draw, `over` is set. The search
   * window is reset to `list_lower..list_upper`, which overwrites the reset
   * to the whole of `main_list` made when a fresh list is popped.
   */
  function NextSortElement<T>(s: MergeState<T>): (r: MergeState<T>)
    ensures r.mainList == s.mainList && r.listUpper == s.listUpper && r.listLower == s.listLower
    ensures r.documentLists == if Refills(s) then s.documentLists[..|s.documentLists| - 1] else s.documentLists
    ensures Pool(s) == [] ==>
      r.over && r.sortList == [] && r.currentSortElement == s.currentSortElement && r.mode == s.mode
      && r.middle == s.middle && r.currentComparisonElement == s.currentComparisonElement
      && (Refills(s) ==> r.currentUpper == |s.mainList| - 1 && r.currentLower == 0)
      && (!Refills(s) ==> r.currentUpper == s.currentUpper && r.currentLower == s.currentLower)
    ensures Pool(s) != [] ==>
      r.over == s.over && r.mode != s.mode
      && r.currentUpper == s.listUpper && r.currentLower == s.listLower
      && r.middle == MiddleIndex(s.listUpper, s.listLower)
      && r.currentComparisonElement == At(s.mainList, r.middle)
      && (s.mode == Top ==> r.currentSortElement == Some(Last(Pool(s))) && r.sortList == Pool(s)[..|Pool(s)| - 1])
      && (s.mode == Bot ==> r.currentSortElement == Some(Pool(s)[0]) && r.sortList == Pool(s)[1..])
  {
    var s1 := if Refills(s) then Refilled(s) else s;
    if s1.sortList != [] then
      var s2 := Take(s1);
      Next(s2.(currentUpper := s2.listUpper, currentLower := s2.listLower))
    else
      s1.(over := true)
  }

  /** The refill: the last of `document_lists` is popped into `sort_list` and the search bounds cover `main_list`. */
  function Refilled<T>(s: MergeState<T>): MergeState<T>
    requires s.documentLists != []
  {
    s.(sortList := Last(s.documentLists), documentLists := s.documentLists[..|s.documentLists| - 1],
       currentUpper := |s.mainList| - 1, currentLower := 0)
  }

  /** The draw: `pop` from the back on `Top`, `shift` from the front on `Bot`, and the mode flips. */
  function Take<T>(s: MergeState<T>): MergeState<T>
    requires s.sortList != []
  {
    if s.mode == Top then
      s.(currentSortElement := Some(Last(s.sortList)), sortList := s.sortList[..|s.sortList| - 1], mode := Bot)
    else
      s.(currentSortElement := Some(s.sortList[0]), sortList := s.sortList[1..], mode := Top)
  }

  /** The start index JavaScript's `splice` uses for `start` on an array of `length` elements. */
  function Clamp(start: int, length: nat): (i: nat)
    ensures i <= length
    ensures 0 <= start <= length ==> i == start
    ensures start < 0 ==> i == if length + start < 0 then 0 else length + start
  {
    if start < 0 then (if length + start < 0 then 0 else length + start)
    else if start > length then length
    else start
  }

  /** `a.splice(start, 0, x)`: `x` is inserted at the clamped index and every other element keeps its order. */
  function Splice<X>(a: seq<X>, start: int, x: X): (r: seq<X>)
    ensures |r| == |a| + 1
    ensures r[Clamp(start, |a|)] == x
    ensures r[..Clamp(start, |a|)] + r[Clamp(start, |a|) + 1..] == a
  {
    var i := Clamp(start, |a|);
    var r := a[..i] + [x] + a[i..];
    assert r[..i] == a[..i] && r[i + 1..] == a[i..];
    r
  }

  /**
   * The placement shared by `greater_than` and `less_than` once the window
   * is empty: the drawn group is spliced in at `current_lower`, the outer
   * window is narrowed on the side the mode names, and the next group is drawn.
   */
  function Place<T>(s: MergeState<T>): (r: MergeState<T>)
    requires s.currentSortElement.Some?
    ensures r.mainList == Splice(s.mainList, s.currentLower, s.currentSortElement.value)
    ensures s.mode == Top ==> r.listLower == s.currentLower + 1 && r.listUpper == s.listUpper
    ensures s.mode == Bot ==> r.listUpper == s.currentLower - 1 && r.listLower == s.listLower
  {
    NextSortElement(Spliced(s))
  }

  /** The splice at `current_lower` and the narrowing of the outer window, before the next draw. */
  function Spliced<T>(s: MergeState<T>): MergeState<T>
    requires s.currentSortElement.Some?
  {
    var main := Splice(s.mainList, s.currentLower, s.currentSortElement.value);
    if s.mode == Top then s.(mainList := main, listLower := s.currentLower + 1)
    else s.(mainList := main, listUpper := s.currentLower - 1)
  }

  /** Whether `greater_than` empties the window and so places the group. */
  predicate GreaterPlaces<T>(s: MergeState<T>)
  {
    s.middle - 1 < s.currentLower
  }

  /** Whether `less_than` empties the window and so places the group. */
  predicate LessPlaces<T>(s: MergeState<T>)
  {
    s.middle + 1 > s.currentUpper
  }

  /**
   * `greater_than`: the drawn group ranks above `main_list[middle]`, so the
   * search continues below `middle`, or the group is placed at
   * `current_lower` once the window is empty.
   */
  function GreaterThan<T>(s: MergeState<T>): (r: MergeState<T>)
    requires s.currentSortElement.Some?
    ensures GreaterPlaces(s) ==> r == Place(s.(currentUpper := s.middle - 1))
    ensures !GreaterPlaces(s) ==>
      r.mainList == s.mainList && r.sortList == s.sortList && r.documentLists == s.documentLists
      && r.currentSortElement == s.currentSortElement && r.mode == s.mode && r.over == s.over
      && r.listUpper == s.listUpper && r.listLower == s.listLower
      && r.currentUpper == s.middle - 1 && r.currentLower == s.currentLower
      && r.middle == MiddleIndex(r.currentUpper, r.currentLower)
      && r.currentComparisonElement == At(r.mainList, r.middle)
  {
    var s1 := s.(currentUpper := s.middle - 1);
    if s1.currentUpper < s1.currentLower then Place(s1) else Next(s1)
  }

  /**
   * `less_than`: the drawn group ranks below `main_list[middle]`, so the
   * search continues above `middle`, or the group is placed at the new
   * `current_lower` once the window is empty.
   */
  function LessThan<T>(s: MergeState<T>): (r: MergeState<T>)
    requires s.currentSortElement.Some?
    ensures LessPlaces(s) ==> r == Place(s.(currentLower := s.middle + 1))
    ensures !LessPlaces(s) ==>
      r.mainList == s.mainList && r.sortList == s.sortList && r.documentLists == s.documentLists
      && r.currentSortElement == s.currentSortElement && r.mode == s.mode && r.over == s.over
      && r.listUpper == s.listUpper && r.listLower == s.listLower
      && r.currentLower == s.middle + 1 && r.currentUpper == s.currentUpper
      && r.middle == MiddleIndex(r.currentUpper, r.currentLower)
      && r.currentComparisonElement == At(r.mainList, r.middle)
  {
    var s1 := s.(currentLower := s.middle + 1);
    if s1.currentLower > s1.currentUpper then Place(s1) else Next(s1)
  }

  /**
   * `equal`: the drawn group joins `main_list[middle]`, the outer window is
   * narrowed past `middle` on the side the mode names, and the next group is
   * drawn. With `middle` outside `main_list` the source spreads `undefined`
   * and throws a TypeError before changing anything.
   */
  function Equal<T>(s: MergeState<T>): (r: Result<MergeState<T>>)
    requires s.currentSortElement.Some?
    ensures r.Failure? <==> !(0 <= s.middle < |s.mainList|)
    ensures r.Success? ==>
      |r.value.mainList| == |s.mainList|
      && r.value.mainList[s.middle] == s.mainList[s.middle] + s.currentSortElement.value
      && (forall i :: 0 <= i < |s.mainList| && i != s.middle ==> r.value.mainList[i] == s.mainList[i])
      && (s.mode == Top ==> r.value.listLower == s.middle + 1 && r.value.listUpper == s.listUpper)
      && (s.mode == Bot ==> r.value.listUpper == s.middle - 1 && r.value.listLower == s.listLower)
  {
    if !(0 <= s.middle < |s.mainList|) then
      Failure(TypeError("main_list[middle] is undefined"))
    else
      var main := s.mainList[s.middle := s.mainList[s.middle] + s.currentSortElement.value];
      var s1 :=
        if s.mode == Top then s.(mainList := main, listLower := s.middle + 1)
        else s.(mainList := main, listUpper := s.middle - 1);
      Success(NextSortElement(s1))
  }

  /** One decision, dispatched to the method the source names for it. */
  function Step<T>(s: MergeState<T>, d: Decision): (r: Result<MergeState<T>>)
    requires s.currentSortElement.Some?
    ensures r.Failure? <==> d == Tie && !(0 <= s.middle < |s.mainList|)
  {
    match d
    case Greater => Success(GreaterThan(s))
    case Tie => Equal(s)
    case Less => Success(LessThan(s))
  }

  // ---------------------------------------------------------------------
  // Conservation
  // ---------------------------------------------------------------------

  /** Every id the merger holds: pending lists, `sort_list`, the unplaced drawn group and `main_list`. */
  function Ids<T>(s: MergeState<T>): multiset<T>
  {
    ListIds(s.documentLists) + GroupIds(s.sortList)
    + (if !s.over && s.currentSortElement.Some? then multiset(s.currentSortElement.value) else multiset{})
    + GroupIds(s.mainList)
  }

  /** The ids still waiting to be drawn. */
  function PendingIds<T>(s: MergeState<T>): multiset<T>
  {
    ListIds(s.documentLists) + GroupIds(s.sortList)
  }

  /** A draw moves one group from the pending lists into `current_sort_element`, or ends the merge having moved none. */
  lemma {:induction false} DrawConserves<T>(s: MergeState<T>)
    requires !s.over
    ensures Ids(NextSortElement(s)) == PendingIds(s) + GroupIds(s.mainList)
  {
    var s1 := if Refills(s) then Refilled(s) else s;
    if Refills(s) {
      RefilledIds(s);
    }
    if s1.sortList != [] {
      var s2 := Take(s1);
      TakeIds(s1);
      SameIds(Next(s2.(currentUpper := s2.listUpper, currentLower := s2.listLower)), s2);
    } else {
      EmptyIds(s1);
    }
  }

  /** A refill moves the last pending list into `sort_list`. */
  lemma RefilledIds<T>(s: MergeState<T>)
    requires Refills(s)
    ensures PendingIds(Refilled(s)) == PendingIds(s)
  {
    assert GroupIds(s.sortList) == multiset{} by { assert Flatten(s.sortList) == []; }
  }

  /** A draw moves one group of `sort_list` into `current_sort_element`. */
  lemma TakeIds<T>(s: MergeState<T>)
    requires !s.over && s.sortList != []
    ensures Ids(Take(s)) == PendingIds(s) + GroupIds(s.mainList)
  {
    GroupIdsPop(s.sortList);
  }

  /** With `sort_list` empty, setting `over` leaves exactly the pending lists and `main_list`. */
  lemma EmptyIds<T>(s: MergeState<T>)
    requires s.sortList == []
    ensures Ids(s.(over := true)) == PendingIds(s) + GroupIds(s.mainList)
  {
    assert GroupIds(s.sortList) == multiset{} by { assert Flatten(s.sortList) == []; }
  }

  lemma SpliceIds<T>(a: seq<seq<T>>, start: int, x: seq<T>)
    ensures GroupIds(Splice(a, start, x)) == GroupIds(a) + multiset(x)
  {
    var i := Clamp(start, |a|);
    assert Splice(a, start, x) == a[..i] + [x] + a[i..];
    GroupIdsAppend(a[..i] + [x], a[i..]);
    GroupIdsAppend(a[..i], [x]);
    assert Flatten([x]) == x;
    GroupIdsAppend(a[..i], a[i..]);
    assert a[..i] + a[i..] == a;
  }

  lemma MergeIntoIds<T>(a: seq<seq<T>>, i: int, x: seq<T>)
    requires 0 <= i < |a|
    ensures GroupIds(a[i := a[i] + x]) == GroupIds(a) + multiset(x)
  {
    var b := a[i := a[i] + x];
    assert a == a[..i] + [a[i]] + a[i + 1..];
    assert b == a[..i] + [a[i] + x] + a[i + 1..];
    GroupIdsAppend(a[..i] + [a[i]], a[i + 1..]);
    GroupIdsAppend(a[..i], [a[i]]);
    GroupIdsAppend(a[..i] + [a[i] + x], a[i + 1..]);
    GroupIdsAppend(a[..i], [a[i] + x]);
    assert Flatten([a[i]]) == a[i];
    assert Flatten([a[i] + x]) == a[i] + x;
  }

  /** A placement moves the drawn group into `main_list` and loses or duplicates no id. */
  lemma PlaceConserves<T>(s: MergeState<T>)
    requires !s.over && s.currentSortElement.Some?
    ensures Ids(Place(s)) == Ids(s)
  {
    var main := Splice(s.mainList, s.currentLower, s.currentSortElement.value);
    var placed :=
      if s.mode == Top then s.(mainList := main, listLower := s.currentLower + 1)
      else s.(mainList := main, listUpper := s.currentLower - 1);
    assert Place(s) == NextSortElement(placed);
    SpliceIds(s.mainList, s.currentLower, s.currentSortElement.value);
    DrawConserves(placed);
    assert PendingIds(placed) == PendingIds(s);
  }

  /**
   * Every decision taken before the merge is over conserves the ids: each
   * original id stays in exactly one of the pending lists, `sort_list`, the
   * drawn group and `main_list`.
   */
  lemma StepConserves<T>(s: MergeState<T>, d: Decision)
    requires !s.over && s.currentSortElement.Some?
    requires Step(s, d).Success?
    ensures Ids(Step(s, d).value) == Ids(s)
  {
    match d
    case Greater => GreaterConserves(s);
    case Less => LessConserves(s);
    case Tie => TieConserves(s);
  }

  /** `greater_than` keeps the ids: it either places the drawn group or only moves the search. */
  lemma GreaterConserves<T>(s: MergeState<T>)
    requires !s.over && s.currentSortElement.Some?
    ensures Ids(GreaterThan(s)) == Ids(s)
  {
    if GreaterPlaces(s) {
      PlacedConserves(s, s.(currentUpper := s.middle - 1), GreaterThan(s));
    } else {
      SameIds(GreaterThan(s), s);
    }
  }

  /** `less_than` keeps the ids, likewise. */
  lemma LessConserves<T>(s: MergeState<T>)
    requires !s.over && s.currentSortElement.Some?
    ensures Ids(LessThan(s)) == Ids(s)
  {
    if LessPlaces(s) {
      PlacedConserves(s, s.(currentLower := s.middle + 1), LessThan(s));
    } else {
      SameIds(LessThan(s), s);
    }
  }

  /** Placing from `s1`, which differs from `s` only in its search bounds, keeps the ids of `s`. */
  lemma PlacedConserves<T>(s: MergeState<T>, s1: MergeState<T>, r: MergeState<T>)
    requires !s.over && s.currentSortElement.Some?
    requires s1 == s.(currentUpper := s1.currentUpper, currentLower := s1.currentLower)
    requires r == Place(s1)
    ensures Ids(r) == Ids(s)
  {
    PlaceConserves(s1);
    SameIds(s1, s);
  }

  /** `equal` keeps the ids: the drawn group joins `main_list[middle]` and the next one is drawn. */
  lemma TieConserves<T>(s: MergeState<T>)
    requires !s.over && s.currentSortElement.Some?
    requires Equal(s).Success?
    ensures Ids(Equal(s).value) == Ids(s)
  {
    var main := s.mainList[s.middle := s.mainList[s.middle] + s.currentSortElement.value];
    var s1 :=
      if s.mode == Top then s.(mainList := main, listLower := s.middle + 1)
      else s.(mainList := main, listUpper := s.middle - 1);
    assert Equal(s).value == NextSortElement(s1);
    MergeIntoIds(s.mainList, s.middle, s.currentSortElement.value);
    DrawConserves(s1);
    assert PendingIds(s1) == PendingIds(s);
  }

  /** `Ids` reads only the lists, the drawn group and `over`. */
  lemma SameIds<T>(a: MergeState<T>, b: MergeState<T>)
    requires a.documentLists == b.documentLists && a.sortList == b.sortList && a.mainList == b.mainList
    requires a.currentSortElement == b.currentSortElement && a.over == b.over
    ensures Ids(a) == Ids(b)
  {
  }

  // ---------------------------------------------------------------------
  // Termination
  // ---------------------------------------------------------------------

  /** The invariant of an ongoing search: a drawn group, and `middle` and its group kept up to date. */
  predicate Searching<T(==)>(s: MergeState<T>)
  {
    !s.over ==>
      s.currentSortElement.Some?
      && s.middle == MiddleIndex(s.currentUpper, s.currentLower)
      && s.currentComparisonElement == At(s.mainList, s.middle)
  }

  /** The groups not yet placed, the drawn one included. */
  function Remaining<T>(s: MergeState<T>): nat
  {
    ListGroups(s.documentLists) + |s.sortList| + (if s.over then 0 else 1)
  }

  /** The width of the search window. */
  function Width<T>(s: MergeState<T>): int
  {
    s.currentUpper - s.currentLower
  }

  lemma DrawProgress<T>(s: MergeState<T>)
    requires !s.over
    ensures Searching(NextSortElement(s))
    ensures Remaining(NextSortElement(s)) < Remaining(s)
  {
    if Refills(s) {
      assert ListGroups(s.documentLists) == ListGroups(s.documentLists[..|s.documentLists| - 1]) + |Pool(s)|;
    }
  }

  /**
   * Every decision either places the drawn group, so fewer groups remain,
   * or strictly narrows a non-empty window; so whatever the judge answers,
   * a merge reaches `over` after finitely many decisions.
   */
  lemma StepProgress<T>(s: MergeState<T>, d: Decision)
    requires Searching(s) && !s.over
    requires Step(s, d).Success?
    ensures Searching(Step(s, d).value)
    ensures Remaining(Step(s, d).value) < Remaining(s)
      || (Remaining(Step(s, d).value) == Remaining(s) && 0 <= Width(Step(s, d).value) < Width(s))
  {
    match d
    case Greater => GreaterProgress(s);
    case Less => LessProgress(s);
    case Tie => TieProgress(s);
  }

  lemma GreaterProgress<T>(s: MergeState<T>)
    requires Searching(s) && !s.over
    ensures Searching(GreaterThan(s))
    ensures Remaining(GreaterThan(s)) < Remaining(s)
      || (Remaining(GreaterThan(s)) == Remaining(s) && 0 <= Width(GreaterThan(s)) < Width(s))
  {
    if GreaterPlaces(s) {
      var s1 := s.(currentUpper := s.middle - 1);
      DrawPlaced(s1);
    }
  }

  lemma LessProgress<T>(s: MergeState<T>)
    requires Searching(s) && !s.over
    ensures Searching(LessThan(s))
    ensures Remaining(LessThan(s)) < Remaining(s)
      || (Remaining(LessThan(s)) == Remaining(s) && 0 <= Width(LessThan(s)) < Width(s))
  {
    if LessPlaces(s) {
      var s1 := s.(currentLower := s.middle + 1);
      DrawPlaced(s1);
    }
  }

  lemma TieProgress<T>(s: MergeState<T>)
    requires Searching(s) && !s.over && Equal(s).Success?
    ensures Searching(Equal(s).value) && Remaining(Equal(s).value) < Remaining(s)
  {
    var main := s.mainList[s.middle := s.mainList[s.middle] + s.currentSortElement.value];
    var s1 :=
      if s.mode == Top then s.(mainList := main, listLower := s.middle + 1)
      else s.(mainList := main, listUpper := s.middle - 1);
    DrawProgress(s1);
  }

  lemma DrawPlaced<T>(s: MergeState<T>)
    requires !s.over && s.currentSortElement.Some?
    ensures Searching(Place(s)) && Remaining(Place(s)) < Remaining(s)
  {
    var main := Splice(s.mainList, s.currentLower, s.currentSortElement.value);
    var placed :=
      if s.mode == Top then s.(mainList := main, listLower := s.currentLower + 1)
      else s.(mainList := main, listUpper := s.currentLower - 1);
    DrawProgress(placed);
  }

  /**
   * The harness loop of the source: judge, decide, repeat until `over`,
   * with the judge given as a function of the drawn group and the group it
   * is compared with. Reading `[0]` of an undefined comparison group throws,
   * and so does `equal` with `middle` out of range.
   */
  function Play<T>(s: MergeState<T>, judge: (seq<T>, seq<T>) -> Decision): (r: Result<MergeState<T>>)
    requires Searching(s)
    ensures r.Success? ==> r.value.over
    ensures r.Success? ==> Ids(r.value) == Ids(s)
    ensures !s.over && s.currentComparisonElement.None? ==> r.Failure?
    decreases Remaining(s), Width(s)
  {
    if s.over then Success(s)
    else if s.currentComparisonElement.None? then
      Failure(TypeError("cannot read properties of undefined (reading '0')"))
    else
      var d := judge(s.currentSortElement.value, s.currentComparisonElement.value);
      var next := Step(s, d);
      if next.Failure? then Failure(next.error)
      else
        StepProgress(s, d);
        StepConserves(s, d);
        Play(next.value, judge)
  }

  // ---------------------------------------------------------------------
  // Properties of the constructor and of a draw
  // ---------------------------------------------------------------------

  /**
   * With the default `group_by` of 1 the constructor keeps every list
   * intact and orders them by length: the pending lists, the sort list (its
   * first group drawn) and the main list, in that order, are the input
   * lists ascending by length. Hence `main_list` is a longest list and
   * `sort_list` the next longest.
   */
  lemma InitShape<T>(lists: seq<seq<seq<T>>>)
    requires |lists| >= 2
    ensures Init(lists, 1).Success?
    ensures var s := Init(lists, 1).value;
      var all := s.documentLists + [Undrawn(s), s.mainList];
      multiset(all) == multiset(lists) && SortedByLength(all) && |s.documentLists| == |lists| - 2
  {
    InitOrder(lists);
  }

  /** Hence `main_list` is a longest input list, and no pending list is longer than `sort_list`. */
  lemma {:induction false} InitLongest<T>(lists: seq<seq<seq<T>>>)
    requires |lists| >= 2
    ensures Init(lists, 1).Success?
    ensures forall i :: 0 <= i < |lists| ==> |lists[i]| <= |Init(lists, 1).value.mainList|
    ensures var s := Init(lists, 1).value;
      forall i :: 0 <= i < |s.documentLists| ==> |s.documentLists[i]| <= |Undrawn(s)|
  {
    InitShape(lists);
    var s := Init(lists, 1).value;
    var all := s.documentLists + [Undrawn(s), s.mainList];
    LongestLast(all, lists);
    forall i | 0 <= i < |s.documentLists|
      ensures |s.documentLists[i]| <= |Undrawn(s)|
    {
      assert all[i] == s.documentLists[i] && all[|all| - 2] == Undrawn(s);
    }
  }

  lemma LongestLast<X>(sorted: seq<seq<X>>, lists: seq<seq<X>>)
    requires sorted != [] && SortedByLength(sorted) && multiset(sorted) == multiset(lists)
    ensures forall i :: 0 <= i < |lists| ==> |lists[i]| <= |Last(sorted)|
  {
    forall i | 0 <= i < |lists|
      ensures |lists[i]| <= |Last(sorted)|
    {
      assert lists[i] in multiset(sorted);
      var k :| 0 <= k < |sorted| && sorted[k] == lists[i];
    }
  }

  /** The constructor's lists, in the order it leaves them, are the sorted batches. */
  lemma InitOrder<T>(lists: seq<seq<seq<T>>>)
    requires |lists| >= 2
    ensures Init(lists, 1).Success?
    ensures var s := Init(lists, 1).value;
      s.documentLists + [Undrawn(s), s.mainList] == SortByLength(lists)
  {
    assert SortedBatches(lists, 1) == SortByLength(lists);
    assert Init(lists, 1) == Success(Start(SortByLength(lists)));
    StartOrder(SortByLength(lists));
  }

  lemma StartOrder<T>(sorted: seq<seq<seq<T>>>)
    requires |sorted| >= 2
    ensures Start(sorted).documentLists + [Undrawn(Start(sorted)), Start(sorted).mainList] == sorted
  {
    var s := Start(sorted);
    var sort := sorted[|sorted| - 2];
    assert Undrawn(s) == sort by {
      if sort != [] { assert [sort[0]] + sort[1..] == sort; }
    }
    SplitLastTwo(sorted, s.documentLists, Undrawn(s), s.mainList);
  }

  lemma SplitLastTwo<X>(xs: seq<X>, init: seq<X>, penultimate: X, last: X)
    requires |xs| >= 2 && init == xs[..|xs| - 2] && penultimate == xs[|xs| - 2] && last == xs[|xs| - 1]
    ensures init + [penultimate, last] == xs
  {
    assert xs == xs[..|xs| - 2] + [xs[|xs| - 2], xs[|xs| - 1]];
  }

  lemma {:induction false} ListGroupsZero<T>(ls: seq<seq<seq<T>>>)
    ensures ListGroups(ls) == 0 <==> forall i :: 0 <= i < |ls| ==> ls[i] == []
  {
    if ls != [] {
      ListGroupsZero(ls[..|ls| - 1]);
    }
  }

  /**
   * `over` is set exactly when a draw finds nothing to draw. As the pending
   * lists stay ascending by length, the popped list is empty only when every
   * pending list is, so no group is ever left behind.
   */
  lemma DrawOverExact<T>(s: MergeState<T>)
    requires SortedByLength(s.documentLists)
    ensures NextSortElement(s).over <==> s.over || (s.sortList == [] && ListGroups(s.documentLists) == 0)
    ensures SortedByLength(NextSortElement(s).documentLists)
  {
    ListGroupsZero(s.documentLists);
    if Refills(s) && Last(s.documentLists) == [] {
      assert forall i :: 0 <= i < |s.documentLists| ==> |s.documentLists[i]| <= |Last(s.documentLists)|;
    }
  }

  /** Sorting lists that are already ascending by length changes nothing (the sort is stable). */
  lemma {:induction false} SortSorted<X>(ls: seq<seq<X>>)
    requires SortedByLength(ls)
    ensures SortByLength(ls) == ls
  {
    if ls != [] {
      var init := ls[..|ls| - 1];
      SortSorted(init);
      assert init + [Last(ls)] == ls;
    }
  }

  // ---------------------------------------------------------------------
  // Serialisation
  // ---------------------------------------------------------------------

  /** The plain object of `toObject`; `over` is not part of it. */
  datatype MergeObject<T> = MergeObject(
    documentLists: seq<seq<seq<T>>>,
    mainList: seq<seq<T>>,
    sortList: seq<seq<T>>,
    currentUpper: int,
    currentLower: int,
    listUpper: int,
    listLower: int,
    middle: int,
    mode: Mode,
    currentSortElement: Option<seq<T>>,
    currentComparisonElement: Option<seq<T>>)

  /** `toObject`. */
  function ToObject<T>(s: MergeState<T>): MergeObject<T>
  {
    MergeObject(s.documentLists, s.mainList, s.sortList, s.currentUpper, s.currentLower,
                s.listUpper, s.listLower, s.middle, s.mode, s.currentSortElement, s.currentComparisonElement)
  }

  /** The saved object determines the state but for `over`, which it leaves out. */
  lemma ToObjectKeeps<T>(s: MergeState<T>, t: MergeState<T>)
    requires ToObject(s) == ToObject(t)
    ensures s.(over := t.over) == t
  {
  }

  /**
   * `fromObject`: runs the constructor on the object's `document_lists`
   * (which fails with fewer than two of them and otherwise keeps all but the
   * two longest), then copies every other field; `over` is left false.
   */
  function FromObject<T>(o: MergeObject<T>): (r: Result<MergeState<T>>)
    ensures r.Failure? <==> |o.documentLists| < 2
    ensures r.Success? ==>
      r.value.documentLists == SortByLength(o.documentLists)[..|o.documentLists| - 2] && !r.value.over
  {
    match Init(o.documentLists, 1)
    case Failure(e) => Failure(e)
    case Success(m) =>
      // The constructed instance keeps its `document_lists` and `over`; every other field is overwritten.
      Success(MergeState(m.documentLists, o.mainList, o.sortList, o.currentUpper, o.currentLower,
                         o.listUpper, o.listLower, o.middle, o.mode, o.currentSortElement,
                         o.currentComparisonElement, m.over))
  }

  /**
   * `fromObject(toObject(m))` restores every serialised field except
   * `document_lists`, of which the two longest are lost, and resets `over`;
   * with fewer than two pending lists it throws.
   */
  lemma RoundTrip<T>(s: MergeState<T>)
    ensures FromObject(ToObject(s)).Success? <==> |s.documentLists| >= 2
    ensures FromObject(ToObject(s)).Success? ==>
      FromObject(ToObject(s)).value
      == s.(documentLists := SortByLength(s.documentLists)[..|s.documentLists| - 2], over := false)
    ensures FromObject(ToObject(s)).Success? && SortedByLength(s.documentLists) ==>
      FromObject(ToObject(s)).value.documentLists == s.documentLists[..|s.documentLists| - 2]
  {
    var o := ToObject(s);
    if |s.documentLists| >= 2 {
      var r := FromObject(o).value;
      assert r.documentLists == SortByLength(s.documentLists)[..|s.documentLists| - 2] && !r.over;
      assert r == s.(documentLists := r.documentLists, over := false);
      if SortedByLength(s.documentLists) {
        SortSorted(s.documentLists);
      }
    }
  }

  /**
   * A merge of exactly two lists has no pending lists, so the state saved
   * right after construction cannot be restored: `fromObject` throws on it.
   */
  lemma RestoreFailsWithoutPending<T>(lists: seq<seq<seq<T>>>)
    requires |lists| == 2
    ensures Init(lists, 1).Success?
    ensures FromObject(ToObject(Init(lists, 1).value)).Failure?
  {
    InitShape(lists);
    RoundTrip(Init(lists, 1).value);
  }

  /** `fromObject` as evidently intended: every saved field is restored as saved. */
  function FromObjectCorrected<T>(o: MergeObject<T>): (r: MergeState<T>)
    ensures ToObject(r) == o && !r.over
  {
    MergeState(o.documentLists, o.mainList, o.sortList, o.currentUpper, o.currentLower,
               o.listUpper, o.listLower, o.middle, o.mode, o.currentSortElement, o.currentComparisonElement, false)
  }

  /** Saving and restoring gives back the state, `over` aside (it is never saved). */
  lemma RoundTripCorrected<T>(s: MergeState<T>)
    ensures FromObjectCorrected(ToObject(s)) == s.(over := false)
    ensures !s.over ==> FromObjectCorrected(ToObject(s)) == s
  {
  }
}
